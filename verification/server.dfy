/** The server-authoritative resolver for `Interact` messages: a pickup marks
    the entity under the player's cross-hair green and records the player as
    its holder; a let-go clears both again. */
module Server {
  import opened Wrappers
  import opened Protocol
  import opened World

  /** What the message context tells the handler about the sender: the
      authenticated user id, if any, and the sender's client entity, if any. */
  datatype MessageContext = MessageContext(clientUserId: Option<string>, clientEntityId: Option<EntityId>)

  /** The sender is an authenticated player whose client entity is `client`. */
  predicate Authenticated(ctx: MessageContext, client: EntityId) {
    ctx.clientUserId.Some? && ctx.clientEntityId == Some(client)
  }

  /** Every entity of the world appears in `order`, the host's iteration
      order for queries. */
  ghost predicate Covers(w: World, order: seq<EntityId>) {
    forall e :: e in w ==> e in order
  }

  /** Evaluation of the `held_by` query: the (entity, holder) pairs of the
      held entities, in the host's iteration order `order`. Ids in `order`
      that are not live entities are skipped. */
  function EvaluateHeldBy(w: World, order: seq<EntityId>): (q: seq<(EntityId, EntityId)>)
    ensures forall i :: 0 <= i < |q| ==> HeldBy(w, q[i].0, q[i].1) && q[i].0 in order
    ensures forall e :: e in order && e in w && w[e].heldBy.Some? ==> (e, w[e].heldBy.value) in q
  {
    if order == [] then []
    else
      var rest := EvaluateHeldBy(w, order[1..]);
      var e := order[0];
      if e in w && w[e].heldBy.Some? then [(e, w[e].heldBy.value)] + rest else rest
  }

  /** `find` over the query result: the entity of the first pair whose holder
      is `holder`, if there is one. */
  function FirstHeldBy(q: seq<(EntityId, EntityId)>, holder: EntityId): (r: Option<EntityId>)
    ensures r.None? <==> forall i :: 0 <= i < |q| ==> q[i].1 != holder
    ensures r.Some? ==> exists i :: 0 <= i < |q| && q[i] == (r.value, holder) && forall j :: 0 <= j < i ==> q[j].1 != holder
  {
    if q == [] then None
    else if q[0].1 == holder then Some(q[0].0)
    else
      var r := FirstHeldBy(q[1..], holder);
      if r.Some? then
        ghost var i :| 0 <= i < |q[1..]| && q[1..][i] == (r.value, holder) && forall j :: 0 <= j < i ==> q[1..][j].1 != holder;
        assert q[i + 1] == (r.value, holder);
        r
      else r
  }

  /** One step of `find` over the evaluated query: either the first entity
      of the order is held by `holder`, or the search goes on with the rest. */
  lemma FindStep(w: World, order: seq<EntityId>, holder: EntityId)
    requires order != []
    ensures FirstHeldBy(EvaluateHeldBy(w, order), holder)
         == if HeldBy(w, order[0], holder) then Some(order[0])
            else FirstHeldBy(EvaluateHeldBy(w, order[1..]), holder)
  {
    var e := order[0];
    var q := EvaluateHeldBy(w, order);
    var rest := EvaluateHeldBy(w, order[1..]);
    if e in w && w[e].heldBy.Some? {
      assert q[0] == (e, w[e].heldBy.value);
      assert q[1..] == rest;
    } else {
      assert q == rest;
    }
  }

  /** `find` over the evaluated query picks the first entity of the
      iteration order held by `holder`, and finds nothing exactly when no
      entity of the order is held by `holder`. */
  lemma {:induction false} FirstHeldByFollowsOrder(w: World, order: seq<EntityId>, holder: EntityId)
    ensures var r := FirstHeldBy(EvaluateHeldBy(w, order), holder);
      && (r.None? <==> forall k :: 0 <= k < |order| ==> !HeldBy(w, order[k], holder))
      && (r.Some? ==> exists k :: 0 <= k < |order| && order[k] == r.value
                                && forall j :: 0 <= j < k ==> !HeldBy(w, order[j], holder))
    decreases |order|
  {
    if order != [] {
      var tail := order[1..];
      FindStep(w, order, holder);
      FirstHeldByFollowsOrder(w, tail, holder);
      if !HeldBy(w, order[0], holder) {
        var r := FirstHeldBy(EvaluateHeldBy(w, tail), holder);
        assert forall k :: 1 <= k < |order| ==> order[k] == tail[k - 1];
        if r.Some? {
          var k :| 0 <= k < |tail| && tail[k] == r.value
                   && forall j :: 0 <= j < k ==> !HeldBy(w, tail[j], holder);
          assert order[k + 1] == r.value;
        }
      }
    }
  }

  /** The entity a let-go from `client` releases, if any: the first entity of
      the query's iteration order that `client` holds. */
  function ReleaseTarget(w: World, client: EntityId, order: seq<EntityId>): (r: Option<EntityId>)
    ensures r.Some? ==> HeldBy(w, r.value, client)
    ensures r.Some? ==> exists k :: 0 <= k < |order| && order[k] == r.value
                                 && forall j :: 0 <= j < k ==> !HeldBy(w, order[j], client)
    ensures r.None? <==> forall k :: 0 <= k < |order| ==> !HeldBy(w, order[k], client)
    ensures r.None? && Covers(w, order) ==> !Holds(w, client)
  {
    FirstHeldByFollowsOrder(w, order, client);
    FirstHeldBy(EvaluateHeldBy(w, order), client)
  }

  /** Handling of one `Interact` message. `hit` is the first entity the
      physics raycast along the message's ray returns, if any, and `order` is
      the host's iteration order for the `held_by` query. Every rejection is a
      silent return that leaves the world as it was. */
  function Step(w: World, ctx: MessageContext, msg: Interact, hit: Option<EntityId>, order: seq<EntityId>): (w': World)
    ensures w'.Keys == w.Keys
    ensures forall e :: e in w ==> w'[e].holdable == w[e].holdable
    ensures HeldImpliesColoured(w) ==> HeldImpliesColoured(w')
    ensures HeldImpliesHoldable(w) ==> HeldImpliesHoldable(w')
  {
    if ctx.clientUserId.None? then w
    else if ctx.clientEntityId.None? then w
    else
      var client := ctx.clientEntityId.value;
      if msg.interaction == Pickup then
        if hit.None? then w
        else if !HasHoldable(w, hit.value) then w
        else if w[hit.value].color.Some? then w
        else w[hit.value := w[hit.value].(color := Some(Green), heldBy := Some(client))]
      else
        var held := ReleaseTarget(w, client, order);
        if held.None? then w
        else w[held.value := w[held.value].(heldBy := None, color := None)]
  }

  /** A message from a sender without a user id, or without a client entity,
      changes nothing. */
  lemma UnauthenticatedIgnored(w: World, ctx: MessageContext, msg: Interact, hit: Option<EntityId>, order: seq<EntityId>)
    requires ctx.clientUserId.None? || ctx.clientEntityId.None?
    ensures Step(w, ctx, msg, hit, order) == w
  {
  }

  /** A pickup whose ray hits nothing, or hits an entity without the
      `holdable` tag, changes nothing. */
  lemma PickupWithoutHoldableHitIgnored(w: World, ctx: MessageContext, msg: Interact, hit: Option<EntityId>, order: seq<EntityId>)
    requires msg.interaction == Pickup
    requires hit.None? || !HasHoldable(w, hit.value)
    ensures Step(w, ctx, msg, hit, order) == w
  {
  }

  /** A pickup of an entity that already carries a colour changes nothing. */
  lemma PickupOfColouredIgnored(w: World, ctx: MessageContext, msg: Interact, e: EntityId, order: seq<EntityId>)
    requires msg.interaction == Pickup
    requires e in w && w[e].color.Some?
    ensures Step(w, ctx, msg, Some(e), order) == w
  {
  }

  /** First come wins: in a valid world, nobody can take an entity that is
      held, and its holder stays the same. */
  lemma HeldEntityKeepsHolder(w: World, ctx: MessageContext, msg: Interact, e: EntityId, holder: EntityId, order: seq<EntityId>)
    requires HeldImpliesColoured(w)
    requires HeldBy(w, e, holder)
    requires msg.interaction == Pickup
    ensures Step(w, ctx, msg, Some(e), order) == w
    ensures HeldBy(Step(w, ctx, msg, Some(e), order), e, holder)
  {
    assert w[e].color.Some?;
  }

  /** A pickup by an authenticated player of a pickable entity makes the
      player its holder and colours it green; its `holdable` tag and every
      other entity are unchanged. */
  lemma PickupTakes(w: World, ctx: MessageContext, msg: Interact, e: EntityId, client: EntityId, order: seq<EntityId>)
    requires Authenticated(ctx, client)
    requires msg.interaction == Pickup
    requires Pickable(w, e)
    ensures var w' := Step(w, ctx, msg, Some(e), order);
      && HeldBy(w', e, client)
      && w'[e].color == Some(Green)
      && w'[e].holdable == w[e].holdable
      && AgreeExcept(w, w', e)
  {
  }

  /** For an authenticated player's pickup, the world changes exactly when
      the hit entity is pickable. */
  lemma PickupChangesIffPickable(w: World, ctx: MessageContext, msg: Interact, e: EntityId, client: EntityId, order: seq<EntityId>)
    requires Authenticated(ctx, client)
    requires msg.interaction == Pickup
    ensures Step(w, ctx, msg, Some(e), order) != w <==> Pickable(w, e)
  {
    if Pickable(w, e) {
      assert Step(w, ctx, msg, Some(e), order)[e].color != w[e].color;
    }
  }

  /** A let-go from a player who holds nothing changes nothing. */
  lemma LetGoWithoutHoldIgnored(w: World, ctx: MessageContext, msg: Interact, hit: Option<EntityId>, client: EntityId, order: seq<EntityId>)
    requires ctx.clientEntityId == Some(client)
    requires msg.interaction == LetGo
    requires !Holds(w, client)
    ensures Step(w, ctx, msg, hit, order) == w
  {
  }

  /** A pickup does not consult the `held_by` query, so its outcome does not
      depend on the query's iteration order. */
  lemma PickupIgnoresOrder(w: World, ctx: MessageContext, msg: Interact, hit: Option<EntityId>, order1: seq<EntityId>, order2: seq<EntityId>)
    requires msg.interaction == Pickup
    ensures Step(w, ctx, msg, hit, order1) == Step(w, ctx, msg, hit, order2)
  {
  }

  /** A let-go does not raycast, so its outcome does not depend on the
      raycast result. */
  lemma LetGoIgnoresHit(w: World, ctx: MessageContext, msg: Interact, hit1: Option<EntityId>, hit2: Option<EntityId>, order: seq<EntityId>)
    requires msg.interaction == LetGo
    ensures Step(w, ctx, msg, hit1, order) == Step(w, ctx, msg, hit2, order)
  {
  }

  /** `w'` is `w` with the holder and colour of `e` removed and nothing else
      changed. */
  ghost predicate Released(w: World, w': World, e: EntityId) {
    e in w && e in w' && w'[e] == w[e].(heldBy := None, color := None) && AgreeExcept(w, w', e)
  }

  /** A let-go from an authenticated player who holds something releases one
      of the entities that player holds, and nothing else; in a valid world
      that entity can be picked up again. */
  lemma LetGoReleasesOne(w: World, ctx: MessageContext, msg: Interact, hit: Option<EntityId>, client: EntityId, order: seq<EntityId>)
    requires Authenticated(ctx, client)
    requires msg.interaction == LetGo
    requires Covers(w, order)
    requires Holds(w, client)
    ensures exists e :: && HeldBy(w, e, client)
                        && Released(w, Step(w, ctx, msg, hit, order), e)
                        && (HeldImpliesHoldable(w) ==> Pickable(Step(w, ctx, msg, hit, order), e))
  {
    var held := ReleaseTarget(w, client, order);
    var e := held.value;
    var w' := Step(w, ctx, msg, hit, order);
    assert HeldBy(w, e, client) && Released(w, w', e);
    assert HeldImpliesHoldable(w) ==> Pickable(w', e);
  }

  /** Releasing twice is the same as releasing once, provided the player
      holds at most one entity. Each let-go may see its own raycast result
      and query order; the first order must list every entity, or else the
      same order is used twice, since a first let-go whose order misses the
      held entity releases nothing. Without the single-hold proviso it
      fails: see `LetGoNotIdempotentForTwoHeld`. */
  lemma LetGoIdempotentForSingleHold(w: World, ctx: MessageContext, msg: Interact, client: EntityId,
                                     hit1: Option<EntityId>, order1: seq<EntityId>,
                                     hit2: Option<EntityId>, order2: seq<EntityId>)
    requires Authenticated(ctx, client)
    requires msg.interaction == LetGo
    requires HoldsAtMostOne(w, client)
    ensures Covers(w, order1) || order2 == order1 ==>
      var w1 := Step(w, ctx, msg, hit1, order1); Step(w1, ctx, msg, hit2, order2) == w1
  {
    var w1 := Step(w, ctx, msg, hit1, order1);
    var held := ReleaseTarget(w, client, order1);
    if held.Some? {
      assert !Holds(w1, client) by {
        forall e | HeldBy(w1, e, client)
          ensures false
        {
          assert e != held.value;
          assert HeldBy(w, e, client);
        }
      }
      LetGoWithoutHoldIgnored(w1, ctx, msg, hit2, client, order2);
    } else if Covers(w, order1) {
      LetGoWithoutHoldIgnored(w1, ctx, msg, hit2, client, order2);
    } else {
      LetGoIgnoresHit(w1, ctx, msg, hit1, hit2, order1);
    }
  }

  /** The resolver does not limit a player to one held entity: a second
      pickup of another pickable entity succeeds while the first is still
      held. */
  lemma PlayerMayHoldTwo(order: seq<EntityId>)
    ensures var ctx := MessageContext(Some("player"), Some(7));
      var pick := Interact(Vec3(0.0, 0.0, 0.0), Vec3(1.0, 0.0, 0.0), Pickup);
      var w := map[1 := SpawnedCube, 2 := SpawnedCube];
      var w2 := Step(Step(w, ctx, pick, Some(1), order), ctx, pick, Some(2), order);
      HeldBy(w2, 1, 7) && HeldBy(w2, 2, 7)
  {
  }

  /** A let-go with a covering order, from a player who holds something,
      returns the entity released: the world changes, and afterwards the
      player holds exactly what they held before except that entity. */
  lemma LetGoDropsTarget(w: World, ctx: MessageContext, msg: Interact, client: EntityId, hit: Option<EntityId>, order: seq<EntityId>)
      returns (t: EntityId)
    requires Authenticated(ctx, client)
    requires msg.interaction == LetGo
    requires Covers(w, order) && Holds(w, client)
    ensures HeldBy(w, t, client)
    ensures var w' := Step(w, ctx, msg, hit, order);
      && w' != w
      && forall e :: HeldBy(w', e, client) <==> HeldBy(w, e, client) && e != t
  {
    t := ReleaseTarget(w, client, order).value;
    var w' := Step(w, ctx, msg, hit, order);
    assert Released(w, w', t);
    assert w'[t] != w[t];
  }

  /** Without the single-hold proviso release is not idempotent: a player
      holding exactly two entities releases one of them with the first
      let-go and the other with the second, so the second let-go changes
      the world and leaves the player holding nothing. */
  lemma LetGoNotIdempotentForTwoHeld(w: World, ctx: MessageContext, msg: Interact, client: EntityId, e1: EntityId, e2: EntityId,
                                     hit1: Option<EntityId>, order1: seq<EntityId>,
                                     hit2: Option<EntityId>, order2: seq<EntityId>)
    requires Authenticated(ctx, client)
    requires msg.interaction == LetGo
    requires e1 != e2 && HeldBy(w, e1, client) && HeldBy(w, e2, client)
    requires forall e :: HeldBy(w, e, client) ==> e == e1 || e == e2
    requires Covers(w, order1) && Covers(w, order2)
    ensures var w1 := Step(w, ctx, msg, hit1, order1);
      var w2 := Step(w1, ctx, msg, hit2, order2);
      && (HeldBy(w1, e1, client) != HeldBy(w1, e2, client))
      && w2 != w1
      && !Holds(w2, client)
  {
    var w1 := Step(w, ctx, msg, hit1, order1);
    var t1 := LetGoDropsTarget(w, ctx, msg, client, hit1, order1);
    var other := if t1 == e1 then e2 else e1;
    assert HeldBy(w1, other, client);
    var w2 := Step(w1, ctx, msg, hit2, order2);
    var t2 := LetGoDropsTarget(w1, ctx, msg, client, hit2, order2);
  }

  /** The two-player scenario, for a player A who holds nothing else and a
      pickable entity O: A picks up O, B's pickup of O does nothing, A lets
      go (with a query order listing every entity), and B's second pickup
      makes B the holder. If A already held another entity, A's let-go could
      release that one instead and O would stay held. */
  lemma ContestedPickupScenario(w: World, ctxA: MessageContext, ctxB: MessageContext, a: EntityId, b: EntityId,
                                pickA: Interact, pickB: Interact, letGo: Interact, o: EntityId,
                                order1: seq<EntityId>, order2: seq<EntityId>, order3: seq<EntityId>, order4: seq<EntityId>)
    requires Authenticated(ctxA, a) && Authenticated(ctxB, b)
    requires pickA.interaction == Pickup && pickB.interaction == Pickup && letGo.interaction == LetGo
    requires Pickable(w, o)
    requires !Holds(w, a)
    requires Covers(w, order3)
    ensures var w1 := Step(w, ctxA, pickA, Some(o), order1);
      var w2 := Step(w1, ctxB, pickB, Some(o), order2);
      var w3 := Step(w2, ctxA, letGo, None, order3);
      var w4 := Step(w3, ctxB, pickB, Some(o), order4);
      && HeldBy(w1, o, a)
      && w2 == w1
      && Pickable(w3, o) && w3[o].heldBy.None?
      && HeldBy(w4, o, b)
  {
    var w1 := Step(w, ctxA, pickA, Some(o), order1);
    PickupTakes(w, ctxA, pickA, o, a, order1);
    var w2 := Step(w1, ctxB, pickB, Some(o), order2);
    PickupOfColouredIgnored(w1, ctxB, pickB, o, order2);
    assert forall e :: HeldBy(w1, e, a) ==> e == o by {
      forall e | HeldBy(w1, e, a) ensures e == o {
        assert e == o || HeldBy(w, e, a);
      }
    }
    var w3 := Step(w2, ctxA, letGo, None, order3);
    LetGoReleasesOne(w2, ctxA, letGo, None, a, order3);
    assert Released(w2, w3, o);
    PickupTakes(w3, ctxB, pickB, o, b, order4);
  }

  /** Let-go undoes pickup: in a world where held entities are coloured, a
      player holding nothing who picks up an entity and then lets go leaves
      the world exactly as it was, whatever the query orders. */
  lemma PickupThenLetGoRestores(w: World, ctx: MessageContext, pick: Interact, letGo: Interact, e: EntityId,
                                hit: Option<EntityId>, client: EntityId, pickOrder: seq<EntityId>, letGoOrder: seq<EntityId>)
    requires HeldImpliesColoured(w)
    requires Authenticated(ctx, client)
    requires pick.interaction == Pickup && letGo.interaction == LetGo
    requires Pickable(w, e)
    requires !Holds(w, client)
    requires Covers(w, letGoOrder)
    ensures Step(Step(w, ctx, pick, Some(e), pickOrder), ctx, letGo, hit, letGoOrder) == w
  {
    var w1 := Step(w, ctx, pick, Some(e), pickOrder);
    PickupTakes(w, ctx, pick, e, client, pickOrder);
    assert forall x :: HeldBy(w1, x, client) ==> x == e by {
      forall x | HeldBy(w1, x, client) ensures x == e {
        assert x == e || HeldBy(w, x, client);
      }
    }
    var w2 := Step(w1, ctx, letGo, hit, letGoOrder);
    LetGoReleasesOne(w1, ctx, letGo, hit, client, letGoOrder);
    assert Released(w1, w2, e);
    assert w[e].heldBy.None?;
    assert w2[e] == w[e];
    assert w2 == w;
  }

  /** One delivered message: its sender, the message, the raycast result
      and the host's iteration order for the `held_by` query at the moment
      the message is handled. The order may differ from one message to the
      next. */
  datatype Delivery = Delivery(ctx: MessageContext, msg: Interact, hit: Option<EntityId>, order: seq<EntityId>)

  /** Handling a sequence of messages one after the other. */
  function Run(w: World, ds: seq<Delivery>): (w': World)
    ensures w'.Keys == w.Keys
    ensures forall e :: e in w ==> w'[e].holdable == w[e].holdable
    decreases |ds|
  {
    if ds == [] then w
    else Run(Step(w, ds[0].ctx, ds[0].msg, ds[0].hit, ds[0].order), ds[1..])
  }

  /** Handling one message and then the rest. */
  lemma RunCons(w: World, d: Delivery, ds: seq<Delivery>)
    ensures Run(w, [d] + ds) == Run(Step(w, d.ctx, d.msg, d.hit, d.order), ds)
  {
    assert ([d] + ds)[1..] == ds;
  }

  /** Every sequence of messages keeps a valid world valid. */
  lemma {:induction false} RunPreservesValid(w: World, ds: seq<Delivery>)
    ensures Valid(w) ==> Valid(Run(w, ds))
    decreases |ds|
  {
    if ds != [] {
      RunPreservesValid(Step(w, ds[0].ctx, ds[0].msg, ds[0].hit, ds[0].order), ds[1..]);
    }
  }
}
