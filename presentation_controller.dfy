/** The slide-in presentation controller: where the presented panel sits in its container,
    and the pan on the dimming view that drags the panel back out. */
module PresentationController {
  import opened Host
  import opened PresentationManager

  /** True for the directions whose panel slides horizontally. */
  predicate IsHorizontal(d: Direction)
  {
    d == Left || d == Right
  }

  /** The extent of `s` along the axis the panel of `d` slides on. */
  function Along(s: Size, d: Direction): real
  {
    if IsHorizontal(d) then s.width else s.height
  }

  /** The extent of `s` across the axis the panel of `d` slides on. */
  function Across(s: Size, d: Direction): real
  {
    if IsHorizontal(d) then s.height else s.width
  }

  /** The panel size for a container: 80% of it along the sliding axis, all of it across. */
  function ChildSize(d: Direction, parent: Size): (s: Size)
    ensures Along(s, d) == 0.8 * Along(parent, d)
    ensures Across(s, d) == Across(parent, d)
  {
    if IsHorizontal(d) then Size(parent.width * 0.8, parent.height)
    else Size(parent.width, parent.height * 0.8)
  }

  /** `f` touches the container's edge `e` and starts at the container's origin on the
      other axis. */
  predicate AnchoredAt(f: Rect, e: RectEdge, container: Size)
  {
    match e
    case TopEdge => f.MinY() == 0.0 && f.MinX() == 0.0
    case LeftEdge => f.MinX() == 0.0 && f.MinY() == 0.0
    case BottomEdge => f.MaxY() == container.height && f.MinX() == 0.0
    case RightEdge => f.MaxX() == container.width && f.MinY() == 0.0
  }

  /** The frame of the presented panel in a container of the given size. */
  function PresentedFrame(d: Direction, container: Size): (f: Rect)
    ensures f.size == ChildSize(d, container)
    ensures AnchoredAt(f, d.Edge(), container)
  {
    var size := ChildSize(d, container);
    match d
    case Top => Rect(Point(0.0, 0.0), size)
    case Bottom => Rect(Point(0.0, container.height - size.height), size)
    case Left => Rect(Point(0.0, 0.0), size)
    case Right => Rect(Point(container.width - size.width, 0.0), size)
  }

  predicate Within(f: Rect, container: Size)
  {
    0.0 <= f.MinX() && f.MaxX() <= container.width && 0.0 <= f.MinY() && f.MaxY() <= container.height
  }

  /** In a container of non-negative size the panel lies entirely inside the container. */
  lemma PresentedFrameWithinContainer(d: Direction, container: Size)
    requires container.width >= 0.0 && container.height >= 0.0
    ensures Within(PresentedFrame(d, container), container)
  {
  }

  /** The signed distance `translation` moves toward the edge the panel of `d` came from. */
  function Outward(d: Direction, translation: Point): real
  {
    match d
    case Top => -translation.y
    case Bottom => translation.y
    case Left => -translation.x
    case Right => translation.x
  }

  /** The dismiss-pan progress: how far the drag went toward the panel's own edge, as a
      fraction of the view's extent along the sliding axis. */
  function DismissPercent(d: Direction, translation: Point, bounds: Size): (percent: real)
    requires Along(bounds, d) > 0.0
    ensures percent * Along(bounds, d) == Outward(d, translation)
    ensures percent > 0.0 <==> Outward(d, translation) > 0.0
  {
    match d
    case Top => -translation.y / bounds.height
    case Bottom => translation.y / bounds.height
    case Right => translation.x / bounds.width
    case Left => -translation.x / bounds.width
  }

  /** The edge pan projects every drag the way the dismiss pan does for a right-hand panel. */
  lemma EdgePanIsRightProjection(translation: Point, bounds: Size)
    requires bounds.width > 0.0
    ensures EdgePanPercent(translation, bounds) == DismissPercent(Right, translation, bounds)
  {
  }

  /** The rule deciding, at the end of a dismiss pan, whether the dismissal finishes. */
  function DismissCommits(config: SideMenuConfiguration, percent: real, velocity: Point): (commit: bool)
    ensures commit <==> percent > config.minimumScreenRatioToHide
  {
    percent > config.minimumScreenRatioToHide
  }

  /** The dismissal finishes exactly past the threshold, at the threshold it is cancelled,
      and the velocity never matters. */
  lemma DismissRule(config: SideMenuConfiguration, percent: real, v1: Point, v2: Point)
    ensures DismissCommits(config, percent, v1) <==> percent > config.minimumScreenRatioToHide
    ensures !DismissCommits(config, config.minimumScreenRatioToHide, v1)
    ensures DismissCommits(config, percent, v1) == DismissCommits(config, percent, v2)
  {
  }

  /** A left-hand panel in a 400-wide view: dragging 300 to the left is 75% and finishes,
      dragging 100 to the left is 25% and cancels. */
  lemma DismissExamples(v: Point)
    ensures DismissPercent(Left, Point(-300.0, 0.0), Size(400.0, 800.0)) == 0.75
    ensures DismissCommits(DefaultConfiguration(), 0.75, v)
    ensures DismissPercent(Left, Point(-100.0, 0.0), Size(400.0, 800.0)) == 0.25
    ensures !DismissCommits(DefaultConfiguration(), 0.25, v)
  {
  }

  /** What one dismiss-pan action does: the controller's own interaction controller
      afterwards, whether it handed that controller to the delegate, whether it withdrew
      the delegate's controller, and whether it asked for the dismissal. */
  datatype DismissEffect = DismissEffect(own: Option<Interaction>, handsOver: bool, releases: bool, dismissRequested: bool)

  /** One dismiss-pan action on the controller's own interaction controller. */
  function DismissStep(config: SideMenuConfiguration, d: Direction, own: Option<Interaction>, gesture: PanGesture): (r: DismissEffect)
    requires Along(gesture.viewBounds, d) > 0.0
    ensures r.handsOver <==> gesture.state == Began
    ensures r.dismissRequested <==> gesture.state == Began
    ensures r.releases <==> gesture.state == Ended || gesture.state == Cancelled
    ensures gesture.state == Began ==> r.own == Some(FreshInteraction)
    ensures gesture.state != Began ==> (r.own.Some? <==> own.Some?)
  {
    var percent := DismissPercent(d, gesture.translation, gesture.viewBounds);
    match gesture.state
    case Began =>
      DismissEffect(Some(FreshInteraction), true, false, true)
    case Changed =>
      var next := if own.Some? then Some(own.value.(progress := percent)) else None;
      DismissEffect(next, false, false, false)
    case Ended | Cancelled =>
      var settled := if own.Some? then Some(Settle(own.value, DismissCommits(config, percent, gesture.velocity))) else None;
      DismissEffect(settled, false, true, false)
    case Possible | Failed =>
      DismissEffect(own, false, false, false)
  }

  /** Every sample's view has a positive extent along the sliding axis of `d`, so its
      dismiss percent is defined. */
  ghost predicate HasExtent(d: Direction, gestures: seq<PanGesture>)
  {
    forall i :: 0 <= i < |gestures| ==> Along(gestures[i].viewBounds, d) > 0.0
  }

  /** The controller's own interaction controller after a sequence of dismiss-pan actions. */
  ghost function DismissRun(config: SideMenuConfiguration, d: Direction, own: Option<Interaction>, gestures: seq<PanGesture>): Option<Interaction>
    requires HasExtent(d, gestures)
    decreases |gestures|
  {
    if |gestures| == 0 then own
    else DismissRun(config, d, DismissStep(config, d, own, gestures[0]).own, gestures[1..])
  }

  /** The dismiss percent of the last sample, or `initial` when there is none. */
  ghost function LastDismissPercent(d: Direction, initial: real, gestures: seq<PanGesture>): real
    requires HasExtent(d, gestures)
  {
    if |gestures| == 0 then initial
    else DismissPercent(d, gestures[|gestures| - 1].translation, gestures[|gestures| - 1].viewBounds)
  }

  /** Moves update the controller's interaction controller to the raw (unclamped) percent
      of the last move and touch nothing else; with none, they do nothing. */
  lemma {:induction false} DismissMovesTrackLastPercent(config: SideMenuConfiguration, d: Direction, own: Option<Interaction>, moves: seq<PanGesture>)
    requires HasExtent(d, moves) && AllChanged(moves)
    ensures DismissRun(config, d, own, moves)
            == if own.Some? then Some(own.value.(progress := LastDismissPercent(d, own.value.progress, moves))) else None
    decreases |moves|
  {
    if |moves| > 0 {
      var next := DismissStep(config, d, own, moves[0]).own;
      var rest := moves[1..];
      assert HasExtent(d, rest) && AllChanged(rest) by {
        forall i | 0 <= i < |rest| ensures rest[i] == moves[i + 1] { }
      }
      DismissMovesTrackLastPercent(config, d, next, rest);
      if |rest| > 0 {
        assert rest[|rest| - 1] == moves[|moves| - 1];
      }
    }
  }

  /** A whole dismiss pan (began, any number of moves, then ended or cancelled), whatever
      the controller held before: the controller created at the start is finished exactly
      when the last percent is past the threshold, otherwise cancelled, at the last progress
      it was given; the delegate's controller is withdrawn, while the presentation
      controller itself keeps its settled interaction controller. */
  lemma {:induction false} DismissSessionOutcome(config: SideMenuConfiguration, d: Direction, own: Option<Interaction>,
                                                 began: PanGesture, moves: seq<PanGesture>, end: PanGesture)
    requires HasExtent(d, [began] + moves + [end])
    requires began.state == Began && AllChanged(moves) && (end.state == Ended || end.state == Cancelled)
    ensures Along(end.viewBounds, d) > 0.0 && HasExtent(d, [began] + moves)
    ensures var commit := DismissPercent(d, end.translation, end.viewBounds) > config.minimumScreenRatioToHide;
            DismissStep(config, d, DismissRun(config, d, own, [began] + moves), end)
            == DismissEffect(Some(Interaction(LastDismissPercent(d, 0.0, moves), SettlingCompletionSpeed, commit, !commit)), false, true, false)
  {
    var all := [began] + moves + [end];
    assert all[|all| - 1] == end;
    var opening := [began] + moves;
    assert HasExtent(d, opening) && HasExtent(d, moves) by {
      forall i | 0 <= i < |opening| ensures opening[i] == all[i] { }
      forall i | 0 <= i < |moves| ensures moves[i] == opening[i + 1] { }
    }
    assert opening[0] == began && opening[1..] == moves;
    assert DismissStep(config, d, own, began).own == Some(FreshInteraction);
    DismissMovesTrackLastPercent(config, d, Some(FreshInteraction), moves);
  }

  /** The presentation controller of one side-menu presentation. Its delegate is the
      manager that created it. */
  class SlideInPresentationController {
    const direction: Direction
    const config: SideMenuConfiguration
    const delegate: SlideInPresentationManager?
    var interactionController: PercentDrivenTransition?
    /** How many times this controller has asked for the presented panel to be dismissed. */
    var dismissCalls: nat
    /** The controller the delegate held when the dismissal was last requested: the one
        the host's dismissal query answers with while that request runs (null without a
        delegate). */
    ghost var delegateControllerAtDismiss: PercentDrivenTransition?

    constructor (delegate: SlideInPresentationManager?, direction: Direction)
      ensures this.delegate == delegate && this.direction == direction && config == DefaultConfiguration()
      ensures interactionController == null && dismissCalls == 0 && delegateControllerAtDismiss == null
    {
      this.direction := direction;
      this.delegate := delegate;
      config := DefaultConfiguration();
      interactionController := null;
      dismissCalls := 0;
      delegateControllerAtDismiss := null;
    }

    /** The record of this controller's own interaction controller, if it has one. */
    function Own(): Option<Interaction>
      reads this, interactionController
    {
      if interactionController == null then None else Some(interactionController.Snapshot())
    }

    /** The frame the host lays the presented panel out in, for the container's bounds. */
    function FrameOfPresentedViewInContainerView(containerBounds: Size): (f: Rect)
      ensures f.size == ChildSize(direction, containerBounds)
      ensures AnchoredAt(f, direction.Edge(), containerBounds)
    {
      PresentedFrame(direction, containerBounds)
    }

    /** The pan action on the dimming view: on `began` create an interaction controller,
        hand it to the delegate and ask for the dismissal; on `changed` feed it the percent;
        on `ended`/`cancelled` finish or cancel it and withdraw the delegate's controller. */
    method ProgressView(gesture: PanGesture)
      requires Along(gesture.viewBounds, direction) > 0.0
      modifies this, interactionController, delegate
      ensures Own() == DismissStep(config, direction, old(Own()), gesture).own
      ensures dismissCalls == old(dismissCalls) + (if gesture.state == Began then 1 else 0)
      ensures gesture.state == Began ==> fresh(interactionController)
      ensures gesture.state == Began && old(interactionController) != null ==> unchanged(old(interactionController))
      ensures gesture.state != Began ==> interactionController == old(interactionController)
      ensures gesture.state == Began ==>
                delegateControllerAtDismiss == (if delegate != null then interactionController else null)
      ensures gesture.state != Began ==> delegateControllerAtDismiss == old(delegateControllerAtDismiss)
      ensures delegate != null && gesture.state == Began ==> delegate.interactionController == interactionController
      ensures delegate != null && gesture.state in {Ended, Cancelled} ==> delegate.interactionController == null
      ensures delegate != null && gesture.state in {Changed, Possible, Failed} ==>
                delegate.interactionController == old(delegate.interactionController)
      ensures delegate != null ==> delegate.presentActionCalls == old(delegate.presentActionCalls)
    {
      var percent := DismissPercent(direction, gesture.translation, gesture.viewBounds);
      match gesture.state
      case Began =>
        interactionController := new PercentDrivenTransition();
        if delegate != null {
          delegate.Interactor(interactionController);
        }
        delegateControllerAtDismiss := if delegate != null then delegate.InteractionControllerForDismissal() else null;
        dismissCalls := dismissCalls + 1;
      case Changed =>
        if interactionController != null {
          interactionController.Update(percent);
        }
      case Ended | Cancelled =>
        if interactionController != null {
          interactionController.SetCompletionSpeed(SettlingCompletionSpeed);
        }
        FinishInteraction(percent, gesture.velocity);
        if delegate != null {
          delegate.Interactor(null);
        }
      case Possible | Failed =>
    }

    /** Finish the dismissal when the drag went past the threshold, otherwise cancel it;
        without an interaction controller nothing happens. */
    method FinishInteraction(percent: real, velocity: Point)
      modifies interactionController
      ensures Own() == if old(Own()).Some? then Some(Resolve(old(Own()).value, DismissCommits(config, percent, velocity))) else None
    {
      if interactionController != null {
        if DismissCommits(config, percent, velocity) {
          interactionController.Finish();
        } else {
          interactionController.Cancel();
        }
      }
    }
  }

  /** The manager's presentation-controller factory: a new controller whose delegate is the
      manager and whose direction is the manager's. */
  method PresentationControllerFor(manager: SlideInPresentationManager) returns (c: SlideInPresentationController)
    ensures fresh(c)
    ensures c.delegate == manager && c.direction == manager.direction && c.config == DefaultConfiguration()
    ensures c.interactionController == null && c.dismissCalls == 0
  {
    c := new SlideInPresentationController(manager, manager.direction);
  }

  /** A right-hand menu dismissed by a drag across 75% of a 400-wide view: the host, asking
      the manager, drives the very controller the drag updates; releasing at rest finishes
      it and leaves the manager without one. */
  method DismissDragScenario() returns (progressSeenByHost: real, finished: bool, managerCleared: bool)
    ensures progressSeenByHost == 0.75 && finished && managerCleared
  {
    var manager := new SlideInPresentationManager(Right);
    var controller := PresentationControllerFor(manager);
    var bounds := Size(400.0, 800.0);
    controller.ProgressView(PanGesture(Began, Point(0.0, 0.0), Point(0.0, 0.0), bounds));
    controller.ProgressView(PanGesture(Changed, Point(300.0, 0.0), Point(0.0, 0.0), bounds));
    var hosted := manager.InteractionControllerForDismissal();
    progressSeenByHost := hosted.progress;
    controller.ProgressView(PanGesture(Ended, Point(300.0, 0.0), Point(0.0, 0.0), bounds));
    finished := hosted.finished;
    managerCleared := manager.InteractionControllerForDismissal() == null;
  }
}
