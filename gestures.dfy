/** The gesture state machine of GestureListener as pure values: the session state the
    listener carries, the inputs it reacts to (touch events and the firing of its two
    delayed runnables), and the transition function that maps one input to the next
    state and the callbacks invoked on the way. */
module Gestures {

  datatype Option<T> = None | Some(value: T)

  /** The classification the listener keeps between events. */
  datatype GestureType = Undefined | LongPress | Scroll | DoubleTapPending

  datatype Point = Point(x: int, y: int)

  /** The action kinds `onTouch` distinguishes; every other action code is `Other`. */
  datatype Action = Down | Move | Up | Other

  datatype Event = Event(action: Action, at: Point)

  /** What the collaborators answer while one touch event is handled: the results of the
      abstract `onDown` and `onFling` callbacks, and the velocity the tracker reports. */
  datatype Answers = Answers(onDown: bool, onFling: bool, velocityX: int, velocityY: int)

  /** One input to the listener: a touch event, or the firing of the long-press runnable
      (with the answer of `onLongPress`), or the firing of the tap runnable. */
  datatype Input =
    | Touch(event: Event, answers: Answers)
    | LongPressFires(onLongPress: bool)
    | TapFires

  /** A callback invocation. The down event a callback receives is `None` while no DOWN
      has been recorded (the field is still null). */
  datatype Callback =
    | OnDown(event: Point)
    | OnLongPress(down: Option<Point>)
    | OnScroll(down: Option<Point>, event: Point)
    | OnFling(down: Option<Point>, up: Point, velocityX: int, velocityY: int)
    | OnSingleTap(down: Option<Point>)
    | OnDoubleTap(down: Option<Point>)

  /** The listener's fields. `longPressPending` and `tapPending` count the posted and not
      yet run copies of the two runnables; `trackerLive` says a velocity tracker is held. */
  datatype Session = Session(
    gestureType: GestureType,
    x: int, y: int,
    downX: int, downY: int,
    downEvent: Option<Point>,
    consumed: bool,
    trackerLive: bool,
    longPressPending: nat,
    tapPending: nat)

  datatype Transition = Transition(session: Session, callbacks: seq<Callback>)

  /** The state of a freshly constructed listener. */
  const Initial := Session(Undefined, 0, 0, 0, 0, None, false, false, 0, 0)

  /** The recorded down event and the down position agree, and a long press is only
      ever pending once a down event has been recorded. */
  predicate Consistent(s: Session)
  {
    && (s.downEvent.Some? ==> s.downEvent.value == Point(s.downX, s.downY))
    && (s.longPressPending > 0 ==> s.downEvent.Some?)
  }

  /** The touch-slop test: the distance between (0, 0) and (dx, dy) is at least `slop`.
      Stated on integers by comparing squares; see SlopTestIsEuclidean. */
  predicate ReachesSlop(dx: int, dy: int, slop: int)
  {
    slop <= 0 || dx * dx + dy * dy >= slop * slop
  }

  /** A runnable can only run while a copy of it is posted; touch events always arrive. */
  predicate Enabled(s: Session, input: Input)
  {
    match input
    case Touch(_, _) => true
    case LongPressFires(_) => s.longPressPending > 0
    case TapFires => s.tapPending > 0
  }

  /** `onTouch` for one event. A tracker is obtained first whatever the action. */
  function TouchStep(slop: int, s: Session, e: Event, a: Answers): (t: Transition)
  {
    var live := s.(trackerLive := true);
    match e.action
    case Down =>
      if a.onDown then
        Transition(live.(consumed := false), [OnDown(e.at)])
      else
        Transition(live.(longPressPending := s.longPressPending + 1,
                         downEvent := Some(e.at),
                         x := e.at.x, downX := e.at.x,
                         y := e.at.y, downY := e.at.y),
                   [OnDown(e.at)])
    case Move =>
      var classified := match s.gestureType
        // the condition of the `if` assigns false to consumed and is itself false
        case Scroll => live.(consumed := false)
        case LongPress => live.(consumed := false)
        case Undefined =>
          if ReachesSlop(s.downX - e.at.x, s.downY - e.at.y, slop)
          then live.(longPressPending := 0, gestureType := Scroll)
          else live
        case DoubleTapPending => live;
      Transition(classified.(x := e.at.x, y := e.at.y), [])
    case Up =>
      var (vx, vy, tapPending) :=
        if s.gestureType == Scroll then (a.velocityX, a.velocityY, s.tapPending)
        else (0, 0, s.tapPending + 1);
      Transition(s.(consumed := a.onFling, tapPending := tapPending,
                    trackerLive := false, longPressPending := 0, gestureType := Undefined),
                 [OnFling(s.downEvent, e.at, vx, vy)])
    case Other =>
      Transition(s.(trackerLive := false, longPressPending := 0, gestureType := Undefined), [])
  }

  /** One input: a touch event, or one of the two runnables running. */
  function Step(slop: int, s: Session, input: Input): (t: Transition)
    requires Enabled(s, input)
  {
    match input
    case Touch(e, a) => TouchStep(slop, s, e, a)
    case LongPressFires(result) =>
      Transition(s.(gestureType := LongPress, consumed := result,
                    longPressPending := s.longPressPending - 1),
                 [OnLongPress(s.downEvent)])
    case TapFires =>
      Transition(s.(gestureType := DoubleTapPending, consumed := false,
                    tapPending := s.tapPending - 1),
                 [OnSingleTap(s.downEvent)])
  }

  /** Every runnable in `inputs` is posted at the moment it runs. */
  predicate Feasible(slop: int, s: Session, inputs: seq<Input>)
    decreases |inputs|
  {
    |inputs| == 0 ||
    (Enabled(s, inputs[0]) && Feasible(slop, Step(slop, s, inputs[0]).session, inputs[1..]))
  }

  /** The inputs in order: the final state and every callback invoked. */
  function Run(slop: int, s: Session, inputs: seq<Input>): (t: Transition)
    requires Feasible(slop, s, inputs)
    decreases |inputs|
  {
    if |inputs| == 0 then Transition(s, [])
    else
      var first := Step(slop, s, inputs[0]);
      var rest := Run(slop, first.session, inputs[1..]);
      Transition(rest.session, first.callbacks + rest.callbacks)
  }
}
