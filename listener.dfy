/** GestureListener itself: the fields `onTouch` and the two runnables update in place.
    Each method is proved to take the listener exactly as Gestures.Step says, and to
    append the callbacks it invokes to the ghost `trace`. */
module Listener {
  import opened Gestures

  class GestureListener {
    var gestureType: GestureType
    var x: int
    var y: int
    var downX: int
    var downY: int
    var downEvent: Option<Point>
    var consumed: bool
    /** A velocity tracker is held. */
    var trackerLive: bool
    /** Posted and not yet run copies of the long-press runnable. */
    var longPressPending: nat
    /** Posted and not yet run copies of the tap runnable. */
    var tapPending: nat
    /** The scaled touch slop taken from the view configuration at construction. */
    const touchSlop: int
    /** Every callback invoked so far, in order. */
    ghost var trace: seq<Callback>

    ghost function State(): Session
      reads this
    {
      Session(gestureType, x, y, downX, downY, downEvent, consumed, trackerLive,
              longPressPending, tapPending)
    }

    ghost predicate Valid()
      reads this
    {
      Consistent(State())
    }

    constructor (touchSlop: int)
      ensures Valid() && State() == Initial && trace == []
      ensures this.touchSlop == touchSlop
    {
      gestureType := Undefined;
      x, y, downX, downY := 0, 0, 0, 0;
      downEvent := None;
      consumed := false;
      trackerLive := false;
      longPressPending, tapPending := 0, 0;
      this.touchSlop := touchSlop;
      trace := [];
    }

    /** Handles one touch event; `answers` holds what `onDown`, `onFling` and the velocity
        tracker return if they are consulted. Every event is reported as handled. */
    method OnTouch(e: Event, answers: Answers) returns (handled: bool)
      requires Valid()
      modifies this
      ensures Valid()
      ensures handled
      ensures State() == Step(touchSlop, old(State()), Touch(e, answers)).session
      ensures trace == old(trace) + Step(touchSlop, old(State()), Touch(e, answers)).callbacks
    {
      if !trackerLive {
        trackerLive := true;
      }
      match e.action {
        case Down =>
          trace := trace + [OnDown(e.at)];
          if answers.onDown {
            consumed := false;
            return true;
          }
          longPressPending := longPressPending + 1;
          downEvent := Some(e.at);
          x, downX := e.at.x, e.at.x;
          y, downY := e.at.y, e.at.y;
        case Move =>
          match gestureType {
            case Scroll =>
              // the condition of the `if` assigns false and so never holds
              consumed := false;
            case LongPress =>
              consumed := false;
            case Undefined =>
              if ReachesSlop(downX - e.at.x, downY - e.at.y, touchSlop) {
                longPressPending := 0;
                gestureType := Scroll;
              }
            case DoubleTapPending =>
          }
          x, y := e.at.x, e.at.y;
        case Up =>
          if gestureType == Scroll {
            trace := trace + [OnFling(downEvent, e.at, answers.velocityX, answers.velocityY)];
            consumed := answers.onFling;
          } else {
            tapPending := tapPending + 1;
            trace := trace + [OnFling(downEvent, e.at, 0, 0)];
            consumed := answers.onFling;
          }
          trackerLive := false;
          longPressPending := 0;
          gestureType := Undefined;
        case Other =>
          trackerLive := false;
          longPressPending := 0;
          gestureType := Undefined;
      }
      return true;
    }

    /** The long-press runnable runs; `result` is what `onLongPress` returns. */
    method RunLongPress(result: bool)
      requires Valid() && longPressPending > 0
      modifies this
      ensures Valid()
      ensures State() == Step(touchSlop, old(State()), LongPressFires(result)).session
      ensures trace == old(trace) + Step(touchSlop, old(State()), LongPressFires(result)).callbacks
      ensures |trace| > 0 && trace[|trace| - 1].OnLongPress? && trace[|trace| - 1].down.Some?
    {
      longPressPending := longPressPending - 1;
      gestureType := LongPress;
      trace := trace + [OnLongPress(downEvent)];
      consumed := result;
    }

    /** The tap runnable runs. */
    method RunTap()
      requires Valid() && tapPending > 0
      modifies this
      ensures Valid()
      ensures State() == Step(touchSlop, old(State()), TapFires).session
      ensures trace == old(trace) + Step(touchSlop, old(State()), TapFires).callbacks
    {
      tapPending := tapPending - 1;
      gestureType := DoubleTapPending;
      consumed := false;
      trace := trace + [OnSingleTap(downEvent)];
    }
  }
}
