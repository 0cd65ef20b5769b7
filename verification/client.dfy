/** The client's per-frame input handling: mouse-button edges of the left
    button become `Interact` messages for the server. */
module Client {
  import opened Wrappers
  import opened Protocol

  datatype MouseButton = Left | Right | Middle | Back | Forward | Other(code: nat)

  /** The input delta of one frame: the buttons that went down and the
      buttons that came up since the previous frame. */
  datatype InputDelta = InputDelta(mouseButtons: set<MouseButton>, mouseButtonsReleased: set<MouseButton>)

  /** What one frame callback observes: whether the game window has focus,
      the input delta, and the centre ray of the active camera (`None` when
      no camera is active). */
  datatype FrameInput = FrameInput(gameFocused: bool, delta: InputDelta, cameraRay: Option<Ray>)

  /** The message carries the given ray. */
  predicate CarriesRay(m: Interact, ray: Ray) {
    m.rayOrigin == ray.origin && m.rayDir == ray.dir
  }

  /** Sends one interaction along the active camera's centre ray; without an
      active camera nothing is sent. */
  function SendInteraction(cameraRay: Option<Ray>, interaction: InteractState): (sent: seq<Interact>)
    ensures cameraRay.None? <==> sent == []
    ensures |sent| <= 1
    ensures forall i :: 0 <= i < |sent| ==> sent[i].interaction == interaction && CarriesRay(sent[i], cameraRay.value)
  {
    match cameraRay
    case None => []
    case Some(ray) => [Interact(ray.origin, ray.dir, interaction)]
  }

  /** The button set is non-empty and holds the left button. */
  predicate HasLeft(buttons: set<MouseButton>) {
    buttons != {} && Left in buttons
  }

  /** The messages one frame sends, in sending order: a pickup for a left
      press, then a let-go for a left release. */
  function OnFrame(f: FrameInput): (sent: seq<Interact>)
    ensures !f.gameFocused || f.cameraRay.None? ==> sent == []
    ensures |sent| <= 2
    ensures forall i :: 0 <= i < |sent| ==> CarriesRay(sent[i], f.cameraRay.value)
    ensures (exists i :: 0 <= i < |sent| && sent[i].interaction == Pickup)
        <==> f.gameFocused && f.cameraRay.Some? && Left in f.delta.mouseButtons
    ensures (exists i :: 0 <= i < |sent| && sent[i].interaction == LetGo)
        <==> f.gameFocused && f.cameraRay.Some? && Left in f.delta.mouseButtonsReleased
    ensures |sent| == 2 ==> sent[0].interaction == Pickup && sent[1].interaction == LetGo
  {
    if !f.gameFocused then []
    else
      var pickup := if HasLeft(f.delta.mouseButtons) then SendInteraction(f.cameraRay, Pickup) else [];
      var letGo := if HasLeft(f.delta.mouseButtonsReleased) then SendInteraction(f.cameraRay, LetGo) else [];
      var sent := pickup + letGo;
      assert forall i :: 0 <= i < |pickup| ==> sent[i] == pickup[i];
      assert forall i :: 0 <= i < |letGo| ==> sent[|pickup| + i] == letGo[i];
      assert HasLeft(f.delta.mouseButtons) <==> Left in f.delta.mouseButtons;
      assert HasLeft(f.delta.mouseButtonsReleased) <==> Left in f.delta.mouseButtonsReleased;
      assert pickup != [] ==> sent[0].interaction == Pickup;
      assert letGo != [] ==> sent[|pickup|].interaction == LetGo;
      sent
  }

  /** The intents of a sequence of messages, in order. */
  function Intents(sent: seq<Interact>): seq<InteractState> {
    seq(|sent|, i requires 0 <= i < |sent| => sent[i].interaction)
  }

  /** A frame in which the left button goes both down and up sends a pickup
      and then a let-go. */
  lemma ClickWithinFrameOrder(f: FrameInput)
    requires f.gameFocused && f.cameraRay.Some?
    requires Left in f.delta.mouseButtons && Left in f.delta.mouseButtonsReleased
    ensures Intents(OnFrame(f)) == [Pickup, LetGo]
  {
  }

  /** A frame whose button edges do not involve the left button sends
      nothing. */
  lemma NonLeftButtonsSendNothing(f: FrameInput)
    requires Left !in f.delta.mouseButtons && Left !in f.delta.mouseButtonsReleased
    ensures OnFrame(f) == []
  {
  }
}
