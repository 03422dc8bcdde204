/** Properties of whole runs: any interleaving of touch events with the two runnables,
    as long as a runnable only runs while it is posted. */
module GestureRuns {
  import opened Gestures

  /** The six abstract callbacks of the listener. */
  datatype Kind = DownKind | LongPressKind | ScrollKind | FlingKind | SingleTapKind | DoubleTapKind

  function KindOf(c: Callback): (k: Kind)
  {
    match c
    case OnDown(_) => DownKind
    case OnLongPress(_) => LongPressKind
    case OnScroll(_, _) => ScrollKind
    case OnFling(_, _, _, _) => FlingKind
    case OnSingleTap(_) => SingleTapKind
    case OnDoubleTap(_) => DoubleTapKind
  }

  /** How many times callback `k` occurs in `t`. */
  function Calls(t: seq<Callback>, k: Kind): (n: nat)
  {
    if |t| == 0 then 0 else (if KindOf(t[0]) == k then 1 else 0) + Calls(t[1..], k)
  }

  /** The callback an input is answered with, independently of the state: DOWN asks
      `onDown`, UP asks `onFling`, each runnable calls its own callback, and nothing else
      calls anything. */
  function Trigger(input: Input): (k: Option<Kind>)
  {
    match input
    case Touch(e, _) =>
      (match e.action
       case Down => Some(DownKind)
       case Up => Some(FlingKind)
       case Move => None
       case Other => None)
    case LongPressFires(_) => Some(LongPressKind)
    case TapFires => Some(SingleTapKind)
  }

  /** How many inputs in `inputs` are answered with callback `k`. */
  function Triggered(inputs: seq<Input>, k: Kind): (n: nat)
  {
    if |inputs| == 0 then 0
    else (if Trigger(inputs[0]) == Some(k) then 1 else 0) + Triggered(inputs[1..], k)
  }

  /** DOWN events that `onDown` leaves unclaimed: the only inputs that post the long-press
      runnable. */
  function ArmingDowns(inputs: seq<Input>): (n: nat)
  {
    if |inputs| == 0 then 0
    else
      (match inputs[0]
       case Touch(Event(Down, _), a) => if a.onDown then 0 else 1
       case _ => 0)
      + ArmingDowns(inputs[1..])
  }

  lemma {:induction false} CallsAppend(a: seq<Callback>, b: seq<Callback>, k: Kind)
    ensures Calls(a + b, k) == Calls(a, k) + Calls(b, k)
  {
    if |a| == 0 {
      assert a + b == b;
    } else {
      assert (a + b)[0] == a[0] && (a + b)[1..] == a[1..] + b;
      CallsAppend(a[1..], b, k);
    }
  }

  /** Every callback is invoked exactly once for each input that triggers it, and at no
      other time: one `onDown` per DOWN, one `onFling` per UP, one `onLongPress` and one
      `onSingleTap` per run of the corresponding runnable. */
  lemma {:induction false} RunCallbackCounts(slop: int, s: Session, inputs: seq<Input>, k: Kind)
    requires Feasible(slop, s, inputs)
    ensures Calls(Run(slop, s, inputs).callbacks, k) == Triggered(inputs, k)
    decreases |inputs|
  {
    if |inputs| > 0 {
      var first := Step(slop, s, inputs[0]);
      var rest := Run(slop, first.session, inputs[1..]);
      RunCallbackCounts(slop, first.session, inputs[1..], k);
      CallsAppend(first.callbacks, rest.callbacks, k);
      StepCalls(slop, s, inputs[0], k);
    }
  }

  /** One input invokes exactly the callback it triggers. */
  lemma StepCalls(slop: int, s: Session, input: Input, k: Kind)
    requires Enabled(s, input)
    ensures Calls(Step(slop, s, input).callbacks, k) == if Trigger(input) == Some(k) then 1 else 0
  {
  }

  lemma {:induction false} NothingTriggersScrollOrDoubleTap(inputs: seq<Input>)
    ensures Triggered(inputs, ScrollKind) == 0 && Triggered(inputs, DoubleTapKind) == 0
  {
    if |inputs| > 0 {
      NothingTriggersScrollOrDoubleTap(inputs[1..]);
    }
  }

  /** `onScroll` and `onDoubleTap` are never invoked, whatever the inputs and the answers
      of the other callbacks. */
  lemma RunNeverScrollsNorDoubleTaps(slop: int, s: Session, inputs: seq<Input>)
    requires Feasible(slop, s, inputs)
    ensures Calls(Run(slop, s, inputs).callbacks, ScrollKind) == 0
    ensures Calls(Run(slop, s, inputs).callbacks, DoubleTapKind) == 0
  {
    RunCallbackCounts(slop, s, inputs, ScrollKind);
    RunCallbackCounts(slop, s, inputs, DoubleTapKind);
    NothingTriggersScrollOrDoubleTap(inputs);
  }

  /** The tap runnable is removed only by running: touch events never lower the number of
      posted copies, and each UP posts at most one. */
  lemma {:induction false} RunTapBounds(slop: int, s: Session, inputs: seq<Input>)
    requires Feasible(slop, s, inputs)
    ensures var r := Run(slop, s, inputs).session;
      && s.tapPending <= r.tapPending + Triggered(inputs, SingleTapKind)
      && r.tapPending + Triggered(inputs, SingleTapKind) <= s.tapPending + Triggered(inputs, FlingKind)
    decreases |inputs|
  {
    if |inputs| > 0 {
      RunTapBounds(slop, Step(slop, s, inputs[0]).session, inputs[1..]);
    }
  }

  /** Without the tap runnable running, the number of its posted copies never decreases. */
  lemma TouchesNeverDropTap(slop: int, s: Session, inputs: seq<Input>)
    requires Feasible(slop, s, inputs)
    requires forall i :: 0 <= i < |inputs| ==> !inputs[i].TapFires?
    ensures Run(slop, s, inputs).session.tapPending >= s.tapPending
  {
    NoTapFiring(inputs);
    RunTapBounds(slop, s, inputs);
  }

  lemma {:induction false} NoTapFiring(inputs: seq<Input>)
    requires forall i :: 0 <= i < |inputs| ==> !inputs[i].TapFires?
    ensures Triggered(inputs, SingleTapKind) == 0
  {
    if |inputs| > 0 {
      NoTapFiring(inputs[1..]);
    }
  }

  /** Each `onLongPress` is paid for by a DOWN left unclaimed by `onDown` (or by a copy of
      the runnable already posted at the start); a long-press runnable still posted at the
      end counts against the same budget. */
  lemma {:induction false} RunLongPressBound(slop: int, s: Session, inputs: seq<Input>)
    requires Feasible(slop, s, inputs)
    ensures Calls(Run(slop, s, inputs).callbacks, LongPressKind) + Run(slop, s, inputs).session.longPressPending
            <= s.longPressPending + ArmingDowns(inputs)
  {
    RunCallbackCounts(slop, s, inputs, LongPressKind);
    LongPressBudget(slop, s, inputs);
  }

  lemma {:induction false} LongPressBudget(slop: int, s: Session, inputs: seq<Input>)
    requires Feasible(slop, s, inputs)
    ensures Triggered(inputs, LongPressKind) + Run(slop, s, inputs).session.longPressPending
            <= s.longPressPending + ArmingDowns(inputs)
    decreases |inputs|
  {
    if |inputs| > 0 {
      LongPressBudget(slop, Step(slop, s, inputs[0]).session, inputs[1..]);
    }
  }

  /** The listener's fields stay consistent along any run, and so `onLongPress` is never
      handed a missing down event. */
  lemma {:induction false} RunKeepsConsistent(slop: int, s: Session, inputs: seq<Input>)
    requires Consistent(s) && Feasible(slop, s, inputs)
    ensures Consistent(Run(slop, s, inputs).session)
    ensures forall c :: c in Run(slop, s, inputs).callbacks && c.OnLongPress? ==> c.down.Some?
    decreases |inputs|
  {
    if |inputs| > 0 {
      var first := Step(slop, s, inputs[0]);
      assert Consistent(first.session);
      RunKeepsConsistent(slop, first.session, inputs[1..]);
    }
  }

  /** A plain tap is reported twice: `onFling` with zero velocity on UP, then `onSingleTap`
      when the tap runnable runs, and the listener is left waiting for a double tap. */
  lemma TapIsFlungThenTapped(slop: int, p: Point, down: Answers, up: Answers)
    requires !down.onDown
    ensures var inputs := [Touch(Event(Down, p), down), Touch(Event(Up, p), up), TapFires];
      && Feasible(slop, Initial, inputs)
      && Run(slop, Initial, inputs).callbacks
           == [OnDown(p), OnFling(Some(p), p, 0, 0), OnSingleTap(Some(p))]
      && Run(slop, Initial, inputs).session.gestureType == DoubleTapPending
  {
    var inputs := [Touch(Event(Down, p), down), Touch(Event(Up, p), up), TapFires];
    var s1 := Step(slop, Initial, inputs[0]).session;
    var s2 := Step(slop, s1, inputs[1]).session;
    assert inputs[1..][1..] == [TapFires];
    assert Run(slop, s2, [TapFires]).callbacks == [OnSingleTap(Some(p))];
    assert Run(slop, s1, inputs[1..]).callbacks == [OnFling(Some(p), p, 0, 0), OnSingleTap(Some(p))];
  }

  /** Any other action does not stop a tap that is already posted: its `onSingleTap` still
      follows. */
  lemma TapSurvivesCancel(slop: int, p: Point, q: Point, down: Answers, up: Answers, other: Answers)
    requires !down.onDown
    ensures var inputs := [Touch(Event(Down, p), down), Touch(Event(Up, p), up),
                           Touch(Event(Other, q), other), TapFires];
      && Feasible(slop, Initial, inputs)
      && Run(slop, Initial, inputs).callbacks
           == [OnDown(p), OnFling(Some(p), p, 0, 0), OnSingleTap(Some(p))]
  {
    var inputs := [Touch(Event(Down, p), down), Touch(Event(Up, p), up),
                   Touch(Event(Other, q), other), TapFires];
    var s1 := Step(slop, Initial, inputs[0]).session;
    var s2 := Step(slop, s1, inputs[1]).session;
    var s3 := Step(slop, s2, inputs[2]).session;
    assert inputs[1..][1..] == [Touch(Event(Other, q), other), TapFires];
    assert inputs[1..][1..][1..] == [TapFires];
    assert Run(slop, s3, [TapFires]).callbacks == [OnSingleTap(Some(p))];
    assert Run(slop, s2, inputs[1..][1..]).callbacks == [OnSingleTap(Some(p))];
    assert Run(slop, s1, inputs[1..]).callbacks == [OnFling(Some(p), p, 0, 0), OnSingleTap(Some(p))];
  }
}
