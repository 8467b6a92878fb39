/** The side-menu presentation manager: the slide direction, the configuration, the
    screen-edge pan that opens the menu, and the transitioning-delegate answers. */
module PresentationManager {
  import opened Host

  /** The two values a side-menu configuration holds. */
  datatype SideMenuConfiguration = SideMenuConfiguration(minimumScreenRatioToHide: real, animationDuration: real)

  /** The configuration every manager and presentation controller is built with. */
  function DefaultConfiguration(): (c: SideMenuConfiguration)
    ensures c.minimumScreenRatioToHide == 0.5 && c.animationDuration == 0.3
    ensures 0.0 < c.minimumScreenRatioToHide < 1.0 && c.animationDuration > 0.0
  {
    SideMenuConfiguration(0.5, 0.3)
  }

  /** A screen edge, as a screen-edge pan recognizer is configured with. */
  datatype RectEdge = TopEdge | BottomEdge | LeftEdge | RightEdge

  /** The edge the menu slides in from. */
  datatype Direction = Top | Bottom | Left | Right {
    /** The screen edge an opening swipe must start from. */
    function Edge(): (e: RectEdge)
      ensures this == Top <==> e == TopEdge
      ensures this == Bottom <==> e == BottomEdge
      ensures this == Left <==> e == LeftEdge
      ensures this == Right <==> e == RightEdge
    {
      match this
      case Top => TopEdge
      case Bottom => BottomEdge
      case Left => LeftEdge
      case Right => RightEdge
    }
  }

  /** Distinct directions open from distinct edges, and every edge belongs to a direction. */
  lemma EdgeIsBijective(d1: Direction, d2: Direction, e: RectEdge)
    ensures d1.Edge() == d2.Edge() ==> d1 == d2
    ensures exists d: Direction :: d.Edge() == e
  {
    match e
    case TopEdge => assert Top.Edge() == e;
    case BottomEdge => assert Bottom.Edge() == e;
    case LeftEdge => assert Left.Edge() == e;
    case RightEdge => assert Right.Edge() == e;
  }

  datatype TransitionType = Presenting | Dismissing

  /** The animator handed to the host: which way it runs and from which edge. */
  datatype Animator = Animator(transitionType: TransitionType, direction: Direction)

  /** The edge-pan progress: the horizontal translation as a fraction of the view's width,
      whatever the direction. */
  function EdgePanPercent(translation: Point, bounds: Size): (percent: real)
    requires bounds.width > 0.0
    ensures percent * bounds.width == translation.x
    ensures percent > 0.0 <==> translation.x > 0.0
  {
    translation.x / bounds.width
  }

  /** The rule deciding, at the end of an edge pan, whether the opening finishes. */
  function EdgeOpenCommits(config: SideMenuConfiguration, percent: real, velocity: Point): (commit: bool)
    ensures commit <==> velocity.x > 0.0 || (velocity.x == 0.0 && percent > config.minimumScreenRatioToHide)
  {
    (percent > config.minimumScreenRatioToHide && velocity.x == 0.0) || velocity.x > 0.0
  }

  /** A rightward flick always opens, a leftward one always closes, and a drag released
      at rest opens exactly when it went past the threshold. */
  lemma EdgeOpenRule(config: SideMenuConfiguration, percent: real, velocity: Point)
    ensures velocity.x > 0.0 ==> EdgeOpenCommits(config, percent, velocity)
    ensures velocity.x < 0.0 ==> !EdgeOpenCommits(config, percent, velocity)
    ensures velocity.x == 0.0 ==> (EdgeOpenCommits(config, percent, velocity) <==> percent > config.minimumScreenRatioToHide)
  {
  }

  /** With the default configuration: a positive velocity finishes at 30%, a negative one
      cancels at 90%, and a drag released at rest finishes at 60% but not at exactly 50%. */
  lemma EdgeOpenExamples()
    ensures EdgeOpenCommits(DefaultConfiguration(), 0.3, Point(5.0, 0.0))
    ensures !EdgeOpenCommits(DefaultConfiguration(), 0.9, Point(-5.0, 0.0))
    ensures EdgeOpenCommits(DefaultConfiguration(), 0.6, Point(0.0, 0.0))
    ensures !EdgeOpenCommits(DefaultConfiguration(), 0.5, Point(0.0, 0.0))
  {
  }

  /** What one edge-pan action does: the controller the manager holds afterwards, the
      controller it finished or cancelled (if any), and whether it ran the present action. */
  datatype EdgePanEffect = EdgePanEffect(stored: Option<Interaction>, settled: Option<Interaction>, presented: bool)

  /** One edge-pan action on the manager's stored controller. */
  function EdgePanStep(config: SideMenuConfiguration, stored: Option<Interaction>, gesture: PanGesture): (r: EdgePanEffect)
    requires gesture.viewBounds.width > 0.0
    ensures r.presented <==> gesture.state == Began
    ensures gesture.state == Began ==> r.stored == Some(FreshInteraction)
    ensures gesture.state == Ended || gesture.state == Cancelled ==> r.stored == None
    ensures r.settled.Some? <==> (gesture.state == Ended || gesture.state == Cancelled) && stored.Some?
    ensures stored == None && gesture.state != Began ==> r.stored == None
  {
    var percent := EdgePanPercent(gesture.translation, gesture.viewBounds);
    match gesture.state
    case Began =>
      EdgePanEffect(Some(FreshInteraction), None, true)
    case Changed =>
      var next := if stored.Some? then Some(stored.value.(progress := percent)) else None;
      EdgePanEffect(next, None, false)
    case Ended | Cancelled =>
      var settled := if stored.Some? then Some(Settle(stored.value, EdgeOpenCommits(config, percent, gesture.velocity))) else None;
      EdgePanEffect(None, settled, false)
    case Possible | Failed =>
      EdgePanEffect(stored, None, false)
  }

  /** Every sample's view has a positive width, so its edge-pan percent is defined. */
  ghost predicate HasWidth(gestures: seq<PanGesture>)
  {
    forall i :: 0 <= i < |gestures| ==> gestures[i].viewBounds.width > 0.0
  }

  ghost predicate AllChanged(gestures: seq<PanGesture>)
  {
    forall i :: 0 <= i < |gestures| ==> gestures[i].state == Changed
  }

  /** The stored controller after a sequence of edge-pan actions. */
  ghost function EdgePanRun(config: SideMenuConfiguration, stored: Option<Interaction>, gestures: seq<PanGesture>): Option<Interaction>
    requires HasWidth(gestures)
    decreases |gestures|
  {
    if |gestures| == 0 then stored
    else EdgePanRun(config, EdgePanStep(config, stored, gestures[0]).stored, gestures[1..])
  }

  /** The percent of the last sample, or `initial` when there is none. */
  ghost function LastEdgePercent(initial: real, gestures: seq<PanGesture>): real
    requires HasWidth(gestures)
  {
    if |gestures| == 0 then initial
    else EdgePanPercent(gestures[|gestures| - 1].translation, gestures[|gestures| - 1].viewBounds)
  }

  /** Moves update a stored controller to the raw (unclamped) percent of the last move and
      touch nothing else. */
  lemma {:induction false} EdgePanMovesTrackLastPercent(config: SideMenuConfiguration, r: Interaction, moves: seq<PanGesture>)
    requires HasWidth(moves) && AllChanged(moves)
    ensures EdgePanRun(config, Some(r), moves) == Some(r.(progress := LastEdgePercent(r.progress, moves)))
    decreases |moves|
  {
    if |moves| > 0 {
      var next := r.(progress := EdgePanPercent(moves[0].translation, moves[0].viewBounds));
      assert EdgePanStep(config, Some(r), moves[0]).stored == Some(next);
      var rest := moves[1..];
      assert HasWidth(rest) && AllChanged(rest) by {
        forall i | 0 <= i < |rest| ensures rest[i] == moves[i + 1] { }
      }
      EdgePanMovesTrackLastPercent(config, next, rest);
      if |rest| > 0 {
        assert rest[|rest| - 1] == moves[|moves| - 1];
      }
    }
  }

  /** Moves with no stored controller leave the manager without one. */
  lemma {:induction false} EdgePanMovesWithoutController(config: SideMenuConfiguration, moves: seq<PanGesture>)
    requires HasWidth(moves) && AllChanged(moves)
    ensures EdgePanRun(config, None, moves) == None
    decreases |moves|
  {
    if |moves| > 0 {
      var rest := moves[1..];
      assert HasWidth(rest) && AllChanged(rest) by {
        forall i | 0 <= i < |rest| ensures rest[i] == moves[i + 1] { }
      }
      EdgePanMovesWithoutController(config, rest);
    }
  }

  /** A whole edge pan (began, any number of moves, then ended or cancelled), whatever the
      manager held before: the controller created at the start is finished or cancelled
      by the opening rule at the last progress it was given, and the manager ends up
      holding no controller. */
  lemma {:induction false} EdgePanSessionOutcome(config: SideMenuConfiguration, stored: Option<Interaction>,
                                                 began: PanGesture, moves: seq<PanGesture>, end: PanGesture)
    requires HasWidth([began] + moves + [end])
    requires began.state == Began && AllChanged(moves) && (end.state == Ended || end.state == Cancelled)
    ensures end.viewBounds.width > 0.0 && HasWidth([began] + moves)
    ensures var commit := EdgeOpenCommits(config, EdgePanPercent(end.translation, end.viewBounds), end.velocity);
            EdgePanStep(config, EdgePanRun(config, stored, [began] + moves), end)
            == EdgePanEffect(None, Some(Interaction(LastEdgePercent(0.0, moves), SettlingCompletionSpeed, commit, !commit)), false)
  {
    var all := [began] + moves + [end];
    assert all[|all| - 1] == end;
    var opening := [began] + moves;
    assert HasWidth(opening) && HasWidth(moves) by {
      forall i | 0 <= i < |opening| ensures opening[i] == all[i] { }
      forall i | 0 <= i < |moves| ensures moves[i] == opening[i + 1] { }
    }
    assert opening[1..] == moves;
    assert opening[0] == began;
    assert EdgePanStep(config, stored, began).stored == Some(FreshInteraction);
    EdgePanMovesTrackLastPercent(config, FreshInteraction, moves);
  }

  /** The manager: it owns the opening edge-pan recognizer and keeps the interaction
      controller of the transition in flight, which the host asks for when it starts a
      presentation or a dismissal. */
  class SlideInPresentationManager {
    const direction: Direction
    const config: SideMenuConfiguration
    var interactionController: PercentDrivenTransition?
    /** How many times the present action handed in at construction has been run. */
    var presentActionCalls: nat
    /** The controller the manager held when the present action last ran: the one the
        host's presentation query answers with while that action presents the menu. */
    ghost var controllerAtPresent: PercentDrivenTransition?

    constructor (direction: Direction := Bottom)
      ensures this.direction == direction && config == DefaultConfiguration()
      ensures interactionController == null && presentActionCalls == 0 && controllerAtPresent == null
    {
      this.direction := direction;
      config := DefaultConfiguration();
      interactionController := null;
      presentActionCalls := 0;
      controllerAtPresent := null;
    }

    /** The stored controller's record, if there is one. */
    function Stored(): Option<Interaction>
      reads this, interactionController
    {
      if interactionController == null then None else Some(interactionController.Snapshot())
    }

    /** The screen-edge pan action: create a controller and present on `began`, feed it
        the percent on `changed`, finish or cancel it and drop it on `ended`/`cancelled`. */
    method HandleEdgePan(gesture: PanGesture)
      requires gesture.viewBounds.width > 0.0
      modifies this, interactionController
      ensures Stored() == EdgePanStep(config, old(Stored()), gesture).stored
      ensures presentActionCalls == old(presentActionCalls) + (if gesture.state == Began then 1 else 0)
      ensures gesture.state == Began ==> fresh(interactionController)
      ensures gesture.state == Began ==> controllerAtPresent == interactionController
      ensures gesture.state != Began ==> controllerAtPresent == old(controllerAtPresent)
      ensures gesture.state == Began && old(interactionController) != null ==> unchanged(old(interactionController))
      ensures gesture.state in {Changed, Possible, Failed} ==> interactionController == old(interactionController)
      ensures gesture.state in {Ended, Cancelled} && old(interactionController) != null ==>
                Some(old(interactionController).Snapshot()) == EdgePanStep(config, old(Stored()), gesture).settled
    {
      var percent := EdgePanPercent(gesture.translation, gesture.viewBounds);
      match gesture.state
      case Began =>
        interactionController := new PercentDrivenTransition();
        controllerAtPresent := interactionController;
        presentActionCalls := presentActionCalls + 1;
      case Changed =>
        if interactionController != null {
          interactionController.Update(percent);
        }
      case Ended | Cancelled =>
        if interactionController != null {
          interactionController.SetCompletionSpeed(SettlingCompletionSpeed);
          if EdgeOpenCommits(config, percent, gesture.velocity) {
            interactionController.Finish();
          } else {
            interactionController.Cancel();
          }
        }
        interactionController := null;
      case Possible | Failed =>
    }

    /** The delegate callback through which the presentation controller hands over (or
        withdraws) the controller of its dismissal. */
    method Interactor(controller: PercentDrivenTransition?)
      modifies this
      ensures interactionController == controller
      ensures presentActionCalls == old(presentActionCalls) && controllerAtPresent == old(controllerAtPresent)
    {
      interactionController := controller;
    }

    /** The interaction controller the host drives a presentation with. */
    function InteractionControllerForPresentation(): (c: PercentDrivenTransition?)
      reads this
      ensures c == interactionController
    {
      interactionController
    }

    /** The interaction controller the host drives a dismissal with. */
    function InteractionControllerForDismissal(): (c: PercentDrivenTransition?)
      reads this
      ensures c == interactionController
      ensures c == InteractionControllerForPresentation()
    {
      interactionController
    }

    function AnimationControllerForPresented(): (a: Animator)
      ensures a.transitionType == Presenting && a.direction == direction
    {
      Animator(Presenting, direction)
    }

    function AnimationControllerForDismissed(): (a: Animator)
      ensures a.transitionType == Dismissing && a.direction == direction
    {
      Animator(Dismissing, direction)
    }
  }
}
