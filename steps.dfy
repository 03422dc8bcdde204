/** What one input does to the listener's state, event kind by event kind. */
module GestureSteps {
  import opened Gestures

  /** A DOWN claimed by `onDown` clears `consumed` and nothing else: no runnable is posted,
      neither position nor the gesture type moves. Only the tracker obtained before the
      switch stays behind. */
  lemma DownClaimedByOnDown(slop: int, s: Session, at: Point, a: Answers)
    requires a.onDown
    ensures var r := Step(slop, s, Touch(Event(Down, at), a));
      && r.session == s.(consumed := false, trackerLive := true)
      && r.callbacks == [OnDown(at)]
  {
  }

  /** Any other DOWN posts the long-press runnable once more and records the event as the
      down and the last position; the gesture type is left as it was. */
  lemma DownArmsLongPress(slop: int, s: Session, at: Point, a: Answers)
    requires !a.onDown
    ensures Step(slop, s, Touch(Event(Down, at), a)).callbacks == [OnDown(at)]
    ensures var r := Step(slop, s, Touch(Event(Down, at), a)).session;
      && r.longPressPending == s.longPressPending + 1
      && r.downEvent == Some(at) && Point(r.downX, r.downY) == at && Point(r.x, r.y) == at
      && r.gestureType == s.gestureType
      && r.consumed == s.consumed && r.tapPending == s.tapPending && r.trackerLive
      && Consistent(r)
  {
  }

  /** A MOVE while undefined turns into a scroll exactly when the contact has left the
      touch slop around the down position, and exactly then removes the long-press
      runnable. Otherwise only the last position changes. */
  lemma MoveWhileUndefined(slop: int, s: Session, at: Point, a: Answers)
    requires s.gestureType == Undefined
    ensures var r := Step(slop, s, Touch(Event(Move, at), a));
      var left := ReachesSlop(s.downX - at.x, s.downY - at.y, slop);
      && r.callbacks == []
      && (r.session.gestureType == Scroll <==> left)
      && (left ==> r.session == s.(gestureType := Scroll, longPressPending := 0,
                                   x := at.x, y := at.y, trackerLive := true))
      && (!left ==> r.session == s.(x := at.x, y := at.y, trackerLive := true))
  {
  }

  /** A MOVE while scrolling or long-pressing never reaches `onScroll`: the condition
      assigns false to `consumed`, so `consumed` is false afterwards whatever it was. */
  lemma MoveWhileScrollingNeverScrolls(slop: int, s: Session, at: Point, a: Answers)
    requires s.gestureType == Scroll || s.gestureType == LongPress
    ensures var r := Step(slop, s, Touch(Event(Move, at), a));
      && r.callbacks == []
      && !r.session.consumed
      && r.session == s.(consumed := false, x := at.x, y := at.y, trackerLive := true)
  {
  }

  /** A MOVE after a single tap has run only updates the last position. */
  lemma MoveWhileTapPending(slop: int, s: Session, at: Point, a: Answers)
    requires s.gestureType == DoubleTapPending
    ensures var r := Step(slop, s, Touch(Event(Move, at), a));
      r.session == s.(x := at.x, y := at.y, trackerLive := true) && r.callbacks == []
  {
  }

  /** UP ends the contact: the gesture is undefined again, no long press is pending and no
      tracker is held. `onFling` is invoked exactly once, with the tracker's velocity after
      a scroll and with (0, 0) otherwise, in which case the tap runnable is posted once;
      its result becomes `consumed`. */
  lemma UpEndsContact(slop: int, s: Session, at: Point, a: Answers)
    ensures var r := Step(slop, s, Touch(Event(Up, at), a));
      var scrolled := s.gestureType == Scroll;
      && r.session.gestureType == Undefined
      && r.session.longPressPending == 0
      && !r.session.trackerLive
      && r.session.consumed == a.onFling
      && r.callbacks == [if scrolled then OnFling(s.downEvent, at, a.velocityX, a.velocityY)
                         else OnFling(s.downEvent, at, 0, 0)]
      && r.session.tapPending == (if scrolled then s.tapPending else s.tapPending + 1)
      && r.session.x == s.x && r.session.y == s.y
      && r.session.downEvent == s.downEvent
      && r.session.downX == s.downX && r.session.downY == s.downY
  {
  }

  /** Any other action releases the tracker, removes the long-press runnable and resets
      the gesture; `consumed`, the positions and a posted tap runnable are kept. */
  lemma OtherResets(slop: int, s: Session, at: Point, a: Answers)
    ensures var r := Step(slop, s, Touch(Event(Other, at), a));
      && r.session == s.(trackerLive := false, longPressPending := 0, gestureType := Undefined)
      && r.session.tapPending == s.tapPending
      && r.callbacks == []
  {
  }

  /** The long-press runnable marks a long press and keeps the answer of `onLongPress`,
      which receives the recorded down event. */
  lemma LongPressRuns(slop: int, s: Session, result: bool)
    requires s.longPressPending > 0
    ensures var r := Step(slop, s, LongPressFires(result));
      && r.session == s.(gestureType := LongPress, consumed := result,
                         longPressPending := s.longPressPending - 1)
      && r.callbacks == [OnLongPress(s.downEvent)]
  {
  }

  /** The tap runnable invokes `onSingleTap` exactly once, clears `consumed` and leaves the
      listener waiting for a double tap that it never recognises. */
  lemma TapRuns(slop: int, s: Session)
    requires s.tapPending > 0
    ensures var r := Step(slop, s, TapFires);
      && r.session == s.(gestureType := DoubleTapPending, consumed := false,
                         tapPending := s.tapPending - 1)
      && r.callbacks == [OnSingleTap(s.downEvent)]
  {
  }

  /** No branch of `onTouch` removes the tap runnable. */
  lemma TouchKeepsTap(slop: int, s: Session, e: Event, a: Answers)
    ensures Step(slop, s, Touch(e, a)).session.tapPending >= s.tapPending
  {
  }

  /** Every input keeps the down event and down position in step, and keeps a long press
      from being pending before any DOWN has been recorded. */
  lemma StepKeepsConsistent(slop: int, s: Session, input: Input)
    requires Consistent(s) && Enabled(s, input)
    ensures Consistent(Step(slop, s, input).session)
  {
  }

  /** The touch-slop test on squares agrees with comparing the Euclidean distance `dist`
      from the down position against the slop. */
  lemma SlopTestIsEuclidean(dx: int, dy: int, slop: int, dist: real)
    requires dist >= 0.0 && dist * dist == (dx * dx + dy * dy) as real
    ensures dist >= slop as real <==> ReachesSlop(dx, dy, slop)
  {
    if slop > 0 {
      var sl := slop as real;
      assert (slop * slop) as real == sl * sl;
      if dist >= sl {
        assert dist * dist >= sl * dist >= sl * sl;
      } else {
        assert dist * dist <= dist * sl < sl * sl;
      }
    }
  }
}
