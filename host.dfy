/** Stand-ins for the few host-toolkit values the slide-in presentation works with:
    points and sizes, pan-gesture samples, and the percent-driven interaction
    controller, which is represented only by the calls made on it. */
module Host {

  datatype Option<T> = None | Some(value: T)

  /** A point or a displacement: a pan translation or a pan velocity. */
  datatype Point = Point(x: real, y: real)

  datatype Size = Size(width: real, height: real)

  datatype Rect = Rect(origin: Point, size: Size) {
    function MinX(): real { origin.x }
    function MinY(): real { origin.y }
    function MaxX(): real { origin.x + size.width }
    function MaxY(): real { origin.y + size.height }
  }

  /** The phases a gesture recognizer reports to its action. */
  datatype GestureState = Possible | Began | Changed | Ended | Cancelled | Failed

  /** What a pan-gesture action reads from its recognizer: the phase, the translation and
      the velocity in the recognizer's view, and that view's bounds. */
  datatype PanGesture = PanGesture(state: GestureState, translation: Point, velocity: Point, viewBounds: Size)

  /** The observable state of a percent-driven interaction controller: the last progress
      handed to update, its completion speed, and whether finish or cancel was called. */
  datatype Interaction = Interaction(progress: real, completionSpeed: real, finished: bool, cancelled: bool)

  /** The completion speed an interaction controller starts with. */
  const DefaultCompletionSpeed: real := 1.0

  /** The completion speed both gesture handlers set just before finishing or cancelling. */
  const SettlingCompletionSpeed: real := 0.999

  /** A newly created interaction controller: no progress, nothing called yet. */
  const FreshInteraction: Interaction := Interaction(0.0, DefaultCompletionSpeed, false, false)

  /** The record after finish (when `commit`) or cancel (otherwise) is called on it. */
  function Resolve(r: Interaction, commit: bool): (s: Interaction)
    ensures s.progress == r.progress && s.completionSpeed == r.completionSpeed
    ensures s.finished == (r.finished || commit) && s.cancelled == (r.cancelled || !commit)
  {
    if commit then r.(finished := true) else r.(cancelled := true)
  }

  /** The record after a handler's end-of-gesture sequence: completion speed set to 0.999,
      then finish or cancel. */
  function Settle(r: Interaction, commit: bool): (s: Interaction)
    ensures s.progress == r.progress && s.completionSpeed == SettlingCompletionSpeed
    ensures s.finished == (r.finished || commit) && s.cancelled == (r.cancelled || !commit)
  {
    Resolve(r.(completionSpeed := SettlingCompletionSpeed), commit)
  }

  /** A percent-driven interaction controller as an object, so that two holders of the
      same controller see each other's updates. */
  class PercentDrivenTransition {
    var progress: real
    var completionSpeed: real
    var finished: bool
    var cancelled: bool

    function Snapshot(): Interaction
      reads this
    {
      Interaction(progress, completionSpeed, finished, cancelled)
    }

    constructor ()
      ensures Snapshot() == FreshInteraction
    {
      progress := 0.0;
      completionSpeed := DefaultCompletionSpeed;
      finished := false;
      cancelled := false;
    }

    method Update(percent: real)
      modifies this
      ensures Snapshot() == old(Snapshot()).(progress := percent)
    {
      progress := percent;
    }

    method SetCompletionSpeed(speed: real)
      modifies this
      ensures Snapshot() == old(Snapshot()).(completionSpeed := speed)
    {
      completionSpeed := speed;
    }

    method Finish()
      modifies this
      ensures Snapshot() == Resolve(old(Snapshot()), true)
    {
      finished := true;
    }

    method Cancel()
      modifies this
      ensures Snapshot() == Resolve(old(Snapshot()), false)
    {
      cancelled := true;
    }
  }
}
