# Slide-in side menu: geometry and drag-to-commit interaction

This project models the core of a side-menu demo built on a mobile UI toolkit's custom
modal presentation: a panel slides in from one of four edges, a swipe from that screen
edge drives the opening interactively, and a pan on the dimming view behind the panel
drives its dismissal. Dafny models three parts:

- `Host` (`host.dfy`) holds stand-ins for the toolkit values the core reads. These are
  points, sizes and rectangles, pan-gesture samples (phase, translation, velocity, view
  bounds) and the percent-driven interaction controller. The controller is a small class,
  so two holders of the same controller see each other's updates. Its `Snapshot()` record
  keeps only the calls made on it: the last `update` progress, the completion speed, and
  whether `finish` or `cancel` was called.
- `PresentationManager` (`presentation_manager.dfy`) models `SlideInPresentationManager.swift`.
  It holds the `Direction` enumeration and its screen edge, the configuration defaults, the
  edge-pan percent and the opening commit rule, and the manager class. That class keeps the
  interaction controller, and its edge-pan handler creates, updates and then finishes or
  cancels and drops that controller. The class also answers the transitioning-delegate
  queries.
- `PresentationController` (`presentation_controller.dfy`) models `SlideInPresentationController.swift`.
  It holds the panel size and presented frame, the per-direction dismiss percent and the
  dismiss commit rule, and the presentation-controller class with its pan handler
  (`progressView`). That handler hands its controller to the delegate manager and later
  withdraws it. The manager's `presentationController(forPresented:…)` factory is modelled
  in this module, because the controller module imports the manager module.

Each gesture handler is specified by a pure step function. For the manager that is
`EdgePanStep`, and for the presentation controller it is `DismissStep`. The class method's
`ensures` ties the new state to that function. Lemmas about runs of the step function then
state what one whole drag (began, any number of changes, ended or cancelled) leaves behind.

All sizes, translations and velocities are exact reals. The source uses `CGFloat` only for
scaling by 0.8, subtraction, division and comparison.

The code differs from a cleaner design of the same interaction in four ways, and the model
follows the code each time. First, progress is passed to the interaction controller
unclamped. Second, a second `began` simply replaces the stored controller; it is not
rejected. Third, the dismiss rule ignores velocity. Fourth, the edge-pan percent is
`translation.x / width` for every direction, top and bottom included.

## Model

| member | source | states |
|---|---|---|
| `PresentationManager.DefaultConfiguration` | SlideMenu/Presentation/SlideInPresentationManager.swift:5-8 | the default threshold is 0.5 and the default duration 0.3; the threshold lies strictly between 0 and 1 and the duration is positive |
| `PresentationManager.Direction.Edge` | SlideMenu/Presentation/SlideInPresentationManager.swift:16-27 | each direction's screen edge is the edge of the same name: top, bottom, left, right |
| `PresentationManager.EdgeIsBijective` | SlideMenu/Presentation/SlideInPresentationManager.swift:16-27 | `Direction.edge` maps distinct directions to distinct screen edges, and every edge is the edge of some direction |
| `PresentationManager.EdgePanPercent` | SlideMenu/Presentation/SlideInPresentationManager.swift:59-60 | the edge-pan percent, times the view width, is the horizontal translation, whatever the direction; it is positive exactly for a rightward drag |
| `PresentationManager.EdgeOpenCommits` | SlideMenu/Presentation/SlideInPresentationManager.swift:71 | the opening finishes iff the horizontal velocity is positive, or it is zero and the percent exceeds the threshold |
| `PresentationManager.EdgeOpenRule` | SlideMenu/Presentation/SlideInPresentationManager.swift:71-75 | at the end of an edge pan, a positive horizontal velocity always finishes the opening and a negative one always cancels it; at zero velocity it finishes exactly when the percent exceeds the threshold |
| `PresentationManager.EdgeOpenExamples` | SlideMenu/Presentation/SlideInPresentationManager.swift:71-75 | with the defaults: percent 0.3 at velocity 5 finishes; 0.9 at velocity -5 cancels; 0.6 at rest finishes; exactly 0.5 at rest cancels |
| `PresentationManager.EdgePanStep` | SlideMenu/Presentation/SlideInPresentationManager.swift:58-80 | `began` installs a fresh controller (progress 0) and runs the present action, and only `began` runs it; after `ended`/`cancelled` nothing is stored, whatever the decision; a controller is settled exactly when one was stored at the end; a stored controller never appears from nothing except on `began` |
| `PresentationManager.EdgePanMovesTrackLastPercent` | SlideMenu/Presentation/SlideInPresentationManager.swift:66-67 | a run of `changed` samples leaves the stored controller's progress at the raw, unclamped percent of the last sample and changes nothing else in it |
| `PresentationManager.EdgePanMovesWithoutController` | SlideMenu/Presentation/SlideInPresentationManager.swift:66-67 | `changed` samples with no stored controller leave the manager without one |
| `PresentationManager.EdgePanSessionOutcome` | SlideMenu/Presentation/SlideInPresentationManager.swift:58-80 | for a whole edge pan (began, changes, ended or cancelled), from any prior state: the manager ends with no controller, and the controller created at `began` is settled with the last change's percent (0 if none), completion speed 0.999, finished iff the opening rule holds for the final sample, cancelled otherwise |
| `PresentationManager.SlideInPresentationManager.constructor` | SlideMenu/Presentation/SlideInPresentationManager.swift:36-48 | a new manager has the given direction (bottom by default), the default configuration, no interaction controller, and has not yet run its present action |
| `PresentationManager.SlideInPresentationManager.HandleEdgePan` | SlideMenu/Presentation/SlideInPresentationManager.swift:58-80 | the new stored controller is the one `EdgePanStep` gives; `began` allocates a fresh controller, leaves the replaced one untouched and runs the present action once, with the fresh controller already stored when it runs; `changed` and other phases keep the same controller object; on `ended`/`cancelled` the dropped controller is left in the state `EdgePanStep` settles it to |
| `PresentationManager.SlideInPresentationManager.Interactor` | SlideMenu/Presentation/SlideInPresentationManager.swift:116-118 | stores exactly the controller (or nil) it is given and changes nothing else |
| `PresentationManager.SlideInPresentationManager.InteractionControllerForPresentation` | SlideMenu/Presentation/SlideInPresentationManager.swift:101-103 | returns the stored controller unchanged |
| `PresentationManager.SlideInPresentationManager.InteractionControllerForDismissal` | SlideMenu/Presentation/SlideInPresentationManager.swift:105-107 | returns the stored controller unchanged, the same one the presentation query returns |
| `PresentationManager.SlideInPresentationManager.AnimationControllerForPresented` | SlideMenu/Presentation/SlideInPresentationManager.swift:93-95 | the presenting animator has kind presenting and the manager's direction |
| `PresentationManager.SlideInPresentationManager.AnimationControllerForDismissed` | SlideMenu/Presentation/SlideInPresentationManager.swift:97-99 | the dismissing animator has kind dismissing and the manager's direction |
| `PresentationController.ChildSize` | SlideMenu/Presentation/SlideInPresentationController.swift:82-89 | the panel is 80% of the container along the sliding axis (width for left/right, height for top/bottom) and 100% across it |
| `PresentationController.PresentedFrame` | SlideMenu/Presentation/SlideInPresentationController.swift:21-39 | the frame's size is the child size for the container; top and left frames sit at the origin, a bottom frame's lower edge is the container's bottom with x = 0, and a right frame's right edge is the container's right with y = 0 |
| `PresentationController.PresentedFrameWithinContainer` | SlideMenu/Presentation/SlideInPresentationController.swift:21-39 | for a container of non-negative width and height, the presented frame lies entirely inside the container |
| `PresentationController.SlideInPresentationController.FrameOfPresentedViewInContainerView` | SlideMenu/Presentation/SlideInPresentationController.swift:21-39 | the controller's frame for its container bounds has the child size and is anchored at the edge of the controller's direction |
| `PresentationController.DismissPercent` | SlideMenu/Presentation/SlideInPresentationController.swift:120-131 | the dismiss percent, times the view's extent along the sliding axis, is the signed drag toward the panel's own edge: -ty for top, ty for bottom, tx for right, -tx for left. It is positive exactly when the drag moves toward that edge |
| `PresentationController.EdgePanIsRightProjection` | SlideMenu/Presentation/SlideInPresentationManager.swift:59-60 | the edge-pan percent equals the right-hand dismiss percent for every drag |
| `PresentationController.DismissCommits` | SlideMenu/Presentation/SlideInPresentationController.swift:152 | the dismissal finishes iff the percent exceeds the threshold |
| `PresentationController.DismissRule` | SlideMenu/Presentation/SlideInPresentationController.swift:150-157 | a dismissal finishes iff the percent exceeds the threshold; a percent equal to the threshold cancels; velocity never changes the outcome |
| `PresentationController.DismissExamples` | SlideMenu/Presentation/SlideInPresentationController.swift:120-157 | a left panel in a 400-wide view: a -300 drag is 0.75 and finishes; a -100 drag is 0.25 and cancels |
| `PresentationController.DismissStep` | SlideMenu/Presentation/SlideInPresentationController.swift:118-148 | only `began` hands a controller to the delegate and asks for the dismissal, and it installs a fresh controller; only `ended`/`cancelled` withdraw the delegate's controller; no other phase creates or drops the controller's own controller |
| `PresentationController.DismissMovesTrackLastPercent` | SlideMenu/Presentation/SlideInPresentationController.swift:138-139 | a run of `changed` samples leaves the controller's own interaction controller at the raw, unclamped percent of the last sample; with no controller the samples do nothing |
| `PresentationController.DismissSessionOutcome` | SlideMenu/Presentation/SlideInPresentationController.swift:118-157 | for a whole dismiss pan, from any prior state: the delegate's controller is withdrawn. The controller's own interaction controller is kept, at the last change's percent (0 if none) and completion speed 0.999. It is finished iff the final sample's percent exceeds the threshold, and cancelled otherwise |
| `PresentationController.SlideInPresentationController.constructor` | SlideMenu/Presentation/SlideInPresentationController.swift:11-19 | a new controller has the given delegate and direction, the default configuration and no interaction controller |
| `PresentationController.SlideInPresentationController.ProgressView` | SlideMenu/Presentation/SlideInPresentationController.swift:118-148 | its own controller becomes what `DismissStep` gives. `began` allocates a fresh one and leaves the replaced one untouched. It hands that same object to the delegate and then requests one dismissal, so the delegate's dismissal query answers with the fresh controller while the request runs. `ended`/`cancelled` leave the delegate holding nil. Other phases leave the delegate's controller as it was |
| `PresentationController.SlideInPresentationController.FinishInteraction` | SlideMenu/Presentation/SlideInPresentationController.swift:150-157 | calls finish on its controller iff the percent exceeds the threshold, otherwise cancel; without a controller it does nothing |
| `PresentationController.PresentationControllerFor` | SlideMenu/Presentation/SlideInPresentationManager.swift:85-91 | the new presentation controller has the manager as delegate and the manager's direction |
| `PresentationController.DismissDragScenario` | SlideMenu/Presentation/SlideInPresentationController.swift:133-147 | for a right panel in a 400-wide view, after `began`, a 300 drag and `ended`, the host sees progress 0.75 through the manager's dismissal query. It sees the same controller finished, and the manager then holds nil |
| `Host.Settle` | SlideMenu/Presentation/SlideInPresentationManager.swift:70-75 | a handler's end of gesture sets the completion speed to 0.999, then marks the controller finished when it commits and cancelled otherwise; progress is kept |
| `Host.PercentDrivenTransition.SetCompletionSpeed` | SlideMenu/Presentation/SlideInPresentationController.swift:142 | setting `completionSpeed` records the given speed and changes nothing else |
| `Host.PercentDrivenTransition.Finish` | SlideMenu/Presentation/SlideInPresentationController.swift:153 | `finish` marks the controller finished and changes nothing else |
| `Host.PercentDrivenTransition.Cancel` | SlideMenu/Presentation/SlideInPresentationController.swift:155 | `cancel` marks the controller cancelled and changes nothing else |
| `Host.Resolve` | SlideMenu/Presentation/SlideInPresentationController.swift:152-156 | finish marks the controller finished and cancel marks it cancelled; neither changes its progress or completion speed |
| `Host.PercentDrivenTransition.constructor` | SlideMenu/Presentation/SlideInPresentationManager.swift:64 | a newly created interaction controller has progress 0 and nothing called on it |
| `Host.PercentDrivenTransition.Update` | SlideMenu/Presentation/SlideInPresentationManager.swift:67 | `update` records the given percent as the progress and changes nothing else |

## Left out

- The screen-edge and dimming-view pan recognizers themselves, and their creation and
  configuration (`bindGesture`, `setupDimmingView`). Also left out are the tap-to-dismiss
  action and the gesture-recognizer delegate answers. These belong to the host toolkit and
  hold no logic of their own. A handler's input is a `PanGesture` sample.
- Dimming-view setup, its layout constraints, its alpha animation alongside the transition,
  and `containerViewWillLayoutSubviews`. These are rendering.
- How `UIPercentDrivenInteractiveTransition` animates `update`, `finish`, `cancel` and
  `completionSpeed`. That is foreign code. The controller is modelled only as the record of
  the calls made on it, with the toolkit's documented starting completion speed of 1.
- The animator class, its hidden-frame rule, the animation duration it reports and the
  timed playback. The animator is named here only by its kind and direction.
- The present action closure and `dismiss(animated:)`. What they trigger happens inside
  the toolkit. Each is modelled as a call counter, together with a ghost field recording the
  controller the manager held at the moment of the call. The toolkit calls back into the
  manager's interaction-controller queries during that call, and this field is what those
  queries answer.
- The `print` of the right-hand origin, and the adaptive presentation-style answer (`.none`).
- The demo's view controllers: storyboard loading, button actions, status-bar settings, and
  the segmented-control switch that re-creates the manager.
- `PresentationManager.EdgePanPercent`, `PresentationController.DismissPercent`,
  `PresentationManager.SlideInPresentationManager.HandleEdgePan` and
  `PresentationController.SlideInPresentationController.ProgressView`: these require
  a positive view extent. The source divides without checking: the edge pan by the view's
  width, and the dismiss pan by the extent along the sliding axis (width for left and
  right, height for top and bottom). In floating point a zero bound gives an infinite or NaN percent,
  which the model does not represent.
- `PresentationController.ChildSize`: the model multiplies by 0.8 exactly, while the source
  multiplies in binary floating point, which rounds.
