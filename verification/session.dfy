/** The client and the server together: the messages one client frame sends,
    delivered to the resolver in sending order and back to back. The
    unreliable channel promises neither; this module assumes both. */
module Session {
  import opened Wrappers
  import opened Protocol
  import opened World
  import opened Server
  import opened Client

  /** The deliveries of one frame's messages from sender `ctx`. They share
      one raycast result `hit` and one query order `order`. This loses no
      behaviour: a frame sends at most one pickup, the only message that
      uses `hit` (`Server.LetGoIgnoresHit`), and at most one let-go, the
      only message that uses `order` (`Server.PickupIgnoresOrder`). */
  function FrameDeliveries(ctx: MessageContext, sent: seq<Interact>, hit: Option<EntityId>, order: seq<EntityId>): seq<Delivery> {
    seq(|sent|, i requires 0 <= i < |sent| => Delivery(ctx, sent[i], hit, order))
  }

  /** The world after the server has handled every message one client frame
      sent. */
  function PlayFrame(w: World, ctx: MessageContext, f: FrameInput, hit: Option<EntityId>, order: seq<EntityId>): (w': World)
    ensures w'.Keys == w.Keys
    ensures Valid(w) ==> Valid(w')
  {
    var ds := FrameDeliveries(ctx, OnFrame(f), hit, order);
    RunPreservesValid(w, ds);
    Run(w, ds)
  }

  /** Playing a frame that sends one message is one resolver step. */
  lemma PlaySingle(w: World, ctx: MessageContext, f: FrameInput, hit: Option<EntityId>, order: seq<EntityId>)
    requires |OnFrame(f)| == 1
    ensures PlayFrame(w, ctx, f, hit, order) == Step(w, ctx, OnFrame(f)[0], hit, order)
  {
    var ds := FrameDeliveries(ctx, OnFrame(f), hit, order);
    assert ds == [Delivery(ctx, OnFrame(f)[0], hit, order)] + [];
    RunCons(w, ds[0], []);
  }

  /** A frame without focus changes nothing on the server. */
  lemma UnfocusedFrameChangesNothing(w: World, ctx: MessageContext, f: FrameInput, hit: Option<EntityId>, order: seq<EntityId>)
    requires !f.gameFocused
    ensures PlayFrame(w, ctx, f, hit, order) == w
  {
  }

  /** Pressing the left button over a pickable entity makes the player its
      holder and colours it green, and nothing else changes. */
  lemma PressPicksUp(w: World, ctx: MessageContext, client: EntityId, f: FrameInput, e: EntityId, order: seq<EntityId>)
    requires Authenticated(ctx, client)
    requires f.gameFocused && f.cameraRay.Some?
    requires Left in f.delta.mouseButtons && Left !in f.delta.mouseButtonsReleased
    requires Pickable(w, e)
    ensures var w' := PlayFrame(w, ctx, f, Some(e), order);
      HeldBy(w', e, client) && w'[e].color == Some(Green) && AgreeExcept(w, w', e)
  {
    PlaySingle(w, ctx, f, Some(e), order);
    PickupTakes(w, ctx, OnFrame(f)[0], e, client, order);
  }

  /** Releasing the left button while holding something releases one of the
      held entities, and nothing else changes. */
  lemma ReleaseLetsGo(w: World, ctx: MessageContext, client: EntityId, f: FrameInput, hit: Option<EntityId>, order: seq<EntityId>)
    requires Authenticated(ctx, client)
    requires f.gameFocused && f.cameraRay.Some?
    requires Left !in f.delta.mouseButtons && Left in f.delta.mouseButtonsReleased
    requires Covers(w, order)
    requires Holds(w, client)
    ensures exists e :: HeldBy(w, e, client) && Released(w, PlayFrame(w, ctx, f, hit, order), e)
  {
    PlaySingle(w, ctx, f, hit, order);
    LetGoReleasesOne(w, ctx, OnFrame(f)[0], hit, client, order);
  }

  /** Press in one frame, release in the next frame the server handles: the
      world is back where it started, for a player who held nothing. */
  lemma PressThenReleaseRestores(w: World, ctx: MessageContext, client: EntityId, press: FrameInput, release: FrameInput,
                                 e: EntityId, hit: Option<EntityId>, pressOrder: seq<EntityId>, releaseOrder: seq<EntityId>)
    requires Valid(w)
    requires Authenticated(ctx, client)
    requires press.gameFocused && press.cameraRay.Some?
    requires Left in press.delta.mouseButtons && Left !in press.delta.mouseButtonsReleased
    requires release.gameFocused && release.cameraRay.Some?
    requires Left !in release.delta.mouseButtons && Left in release.delta.mouseButtonsReleased
    requires Pickable(w, e)
    requires !Holds(w, client)
    requires Covers(w, releaseOrder)
    ensures PlayFrame(PlayFrame(w, ctx, press, Some(e), pressOrder), ctx, release, hit, releaseOrder) == w
  {
    var w1 := PlayFrame(w, ctx, press, Some(e), pressOrder);
    PlaySingle(w, ctx, press, Some(e), pressOrder);
    PlaySingle(w1, ctx, release, hit, releaseOrder);
    PickupThenLetGoRestores(w, ctx, OnFrame(press)[0], OnFrame(release)[0], e, hit, client, pressOrder, releaseOrder);
  }

  /** A click inside one frame (press and release together) over a
      pickable entity picks it up and immediately lets it go again, leaving
      the world as it was, for a player who held nothing. A player already
      holding another entity may see the let-go release that one instead. */
  lemma ClickWithinFrameRestores(w: World, ctx: MessageContext, client: EntityId, f: FrameInput, e: EntityId, order: seq<EntityId>)
    requires Valid(w)
    requires Authenticated(ctx, client)
    requires f.gameFocused && f.cameraRay.Some?
    requires Left in f.delta.mouseButtons && Left in f.delta.mouseButtonsReleased
    requires Pickable(w, e)
    requires !Holds(w, client)
    requires Covers(w, order)
    ensures PlayFrame(w, ctx, f, Some(e), order) == w
  {
    var sent := OnFrame(f);
    ClickWithinFrameOrder(f);
    var ds := FrameDeliveries(ctx, sent, Some(e), order);
    var w1 := Step(w, ctx, sent[0], Some(e), order);
    assert ds == [ds[0]] + ([ds[1]] + []);
    RunCons(w, ds[0], [ds[1]] + []);
    RunCons(w1, ds[1], []);
    PickupThenLetGoRestores(w, ctx, sent[0], sent[1], e, Some(e), client, order, order);
  }
}
