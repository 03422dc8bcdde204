# GestureListener touch-gesture state machine in Dafny

This project models `GestureListener` from the gestures library
(`src/at/semicolon/android/gestures/GestureListener.java`). It is an Android
`OnTouchListener` that turns a stream of pointer events into gesture callbacks.
The listener keeps these fields:

- a gesture type: `UNDEFINED`, `LONGPRESS`, `SCROLL` or `DOUBLE_TAP_PENDING`;
- the last position and the down position;
- the recorded down event;
- the `consumed` flag;
- a velocity tracker.

It also posts two delayed runnables. The long-press runnable marks a long press and asks
`onLongPress`. The tap runnable calls `onSingleTap`.

The project has three parts:

- `gestures.dfy` (module `Gestures`) holds the listener's state as a value (`Session`),
  its inputs and the transition function `Step`. An input is a touch event, the
  long-press runnable running, or the tap runnable running. `Run` applies a sequence of
  inputs.
- `listener.dfy` (module `Listener`) holds the class `GestureListener`. It has the
  source's fields and one method per entry point: `OnTouch` and one method for each
  runnable. Each method updates the fields in place and is proved to do exactly what
  `Step` says. It also appends the callbacks it invokes to a ghost `trace`.
- `steps.dfy` (module `GestureSteps`) and `runs.dfy` (module `GestureRuns`) prove what
  one input does and what holds across whole runs.

Runnables are modelled as counters of posted copies:

- `postDelayed` adds one copy.
- `removeCallbacks` removes every copy.
- A runnable can run only while a copy is posted. Running removes one copy.
- The caller chooses when a runnable runs relative to touch events. This covers every
  timing the delays allow.

The model follows the code as written, including these quirks of the code:

- Line 116 reads `if (mConsumed = false)`. This assigns false and tests the result, so
  the `onScroll` call at line 117 is never reached, and a MOVE while scrolling or
  long-pressing clears `consumed`.
- The tap runnable is posted at line 145, but the only `removeCallbacks` calls (lines 127,
  152 and 162) name the long-press runnable. So another action does not stop a pending
  single tap.
- `onDoubleTap` is declared at line 78 and never called, and `mDoubleTapTimeout` is set at
  line 60 and never read. So there is no double-tap path. After the tap runnable sets
  `DOUBLE_TAP_PENDING` (line 52), the listener stays there until an UP, another action or
  the long-press runnable changes it.
- `onFling` is called on every UP (lines 142 and 146), with zero velocity unless the gesture
  was a scroll. So a plain tap calls both `onFling` and, later, `onSingleTap`.

A velocity tracker is obtained at the start of every `onTouch`, including a DOWN that
`onDown` claims. Only UP and other actions release it.

## Model

| member | source | states |
|---|---|---|
| Listener.GestureListener.constructor | src/at/semicolon/android/gestures/GestureListener.java:58-65 | a new listener is undefined, not consumed, holds no tracker, has nothing posted and no down event |
| Listener.GestureListener.OnTouch | src/at/semicolon/android/gestures/GestureListener.java:83-170 | every event is reported handled; the fields change exactly as `Step` prescribes for the event and the callbacks it invokes are appended to the trace; the fields stay consistent |
| Listener.GestureListener.RunLongPress | src/at/semicolon/android/gestures/GestureListener.java:43-48 | runs only while posted; the fields change exactly as `Step` prescribes for the long-press runnable, appending one `onLongPress`, which is never handed a missing down event |
| Listener.GestureListener.RunTap | src/at/semicolon/android/gestures/GestureListener.java:50-56 | runs only while posted; the fields change exactly as `Step` prescribes for the tap runnable, appending one `onSingleTap` |
| GestureSteps.DownClaimedByOnDown | src/at/semicolon/android/gestures/GestureListener.java:88-99 | a DOWN claimed by `onDown` only clears `consumed` (besides the tracker obtained first): nothing is posted, positions and gesture type stay, only `onDown` is called |
| GestureSteps.DownArmsLongPress | src/at/semicolon/android/gestures/GestureListener.java:96-105 | any other DOWN calls only `onDown` with the event, posts one more long-press runnable, sets down event, down and last position to the event, and keeps gesture type, `consumed` and posted taps |
| GestureSteps.MoveWhileUndefined | src/at/semicolon/android/gestures/GestureListener.java:120-134 | a MOVE while undefined becomes a scroll if and only if the distance from the down position reaches the slop, and then removes the long-press runnable; otherwise only the last position changes |
| GestureSteps.MoveWhileScrollingNeverScrolls | src/at/semicolon/android/gestures/GestureListener.java:113-119 | a MOVE while scrolling or long-pressing calls no callback, leaves `consumed` false and changes nothing else but the last position |
| GestureSteps.MoveWhileTapPending | src/at/semicolon/android/gestures/GestureListener.java:113-134 | a MOVE after the single tap has run only updates the last position |
| GestureSteps.UpEndsContact | src/at/semicolon/android/gestures/GestureListener.java:138-155 | after UP the gesture is undefined, no long press is posted and no tracker held; `onFling` is called once, with the tracker's velocity after a scroll and else with (0, 0) plus one posted tap; `consumed` is its answer; positions and down event are kept |
| GestureSteps.OtherResets | src/at/semicolon/android/gestures/GestureListener.java:157-166 | any other action releases the tracker, removes the long-press runnable and resets the gesture, keeping `consumed`, positions and posted taps, with no callback |
| GestureSteps.LongPressRuns | src/at/semicolon/android/gestures/GestureListener.java:43-48 | the long-press runnable sets `LONGPRESS`, stores `onLongPress`'s answer in `consumed` and calls it once with the down event |
| GestureSteps.TapRuns | src/at/semicolon/android/gestures/GestureListener.java:50-56 | the tap runnable sets `DOUBLE_TAP_PENDING`, clears `consumed` and calls `onSingleTap` once with the down event |
| GestureSteps.TouchKeepsTap | src/at/semicolon/android/gestures/GestureListener.java:94-166 | no branch of `onTouch` lowers the number of posted tap runnables |
| GestureSteps.StepKeepsConsistent | src/at/semicolon/android/gestures/GestureListener.java:43-166 | every input keeps the down event equal to the down position and never leaves a long press posted without a down event |
| GestureSteps.SlopTestIsEuclidean | src/at/semicolon/android/gestures/GestureListener.java:121-126 | the integer slop test on squared distances agrees with comparing the Euclidean distance against the slop |
| GestureRuns.StepCalls | src/at/semicolon/android/gestures/GestureListener.java:94-166 | one input invokes exactly the one callback it triggers (DOWN `onDown`, UP `onFling`, each runnable its own) and no other |
| GestureRuns.RunCallbackCounts | src/at/semicolon/android/gestures/GestureListener.java:43-166 | over any feasible run each callback is called exactly as often as the inputs that trigger it: one `onDown` per DOWN, one `onFling` per UP, one `onLongPress` or `onSingleTap` per run of its runnable |
| GestureRuns.RunNeverScrollsNorDoubleTaps | src/at/semicolon/android/gestures/GestureListener.java:113-119 | over any run `onScroll` and `onDoubleTap` are never called |
| GestureRuns.RunTapBounds | src/at/semicolon/android/gestures/GestureListener.java:145 | taps posted are removed only by running, and each UP posts at most one |
| GestureRuns.TouchesNeverDropTap | src/at/semicolon/android/gestures/GestureListener.java:157-166 | a run without the tap runnable running never lowers the number of posted taps, cancels included |
| GestureRuns.RunLongPressBound | src/at/semicolon/android/gestures/GestureListener.java:101 | `onLongPress` calls plus long presses still posted never exceed those posted at the start plus the DOWNs `onDown` left unclaimed |
| GestureRuns.RunKeepsConsistent | src/at/semicolon/android/gestures/GestureListener.java:43-48 | the fields stay consistent along any run, so `onLongPress` is never handed a missing down event |
| GestureRuns.TapIsFlungThenTapped | src/at/semicolon/android/gestures/GestureListener.java:144-147 | DOWN, UP and the tap runnable call `onDown`, `onFling` with zero velocity, then `onSingleTap`, and leave `DOUBLE_TAP_PENDING` |
| GestureRuns.TapSurvivesCancel | src/at/semicolon/android/gestures/GestureListener.java:157-166 | another action after a tap does not stop its `onSingleTap` |

## Left out

- Android types (`MotionEvent`, `View`, `VelocityTracker`, `ViewConfiguration`, `Context`): an event is its action kind and position, the configuration is the touch slop given to the constructor, and the tracker is a flag.
- Action codes: only DOWN, MOVE and UP are told apart; every other code (cancel, outside, pointer actions) is one `Other` kind, as the `default` branch treats them.
- Floating point: positions and velocities are integers. The `sqrt` distance test becomes a comparison of squared distances against the squared slop. `GestureSteps.SlopTestIsEuclidean` shows that this agrees with the exact real distance. Float rounding is not modelled.
- The `dx`/`dy` deltas scaled by the view size (lines 110-111) are not modelled, because only `onScroll` reads them and it is never called.
- The velocity the tracker computes (lines 141-142), capped by the maximum fling velocity, is an opaque pair of integers supplied with the UP event.
- Timeouts and real time: the long-press, tap and double-tap delays are not modelled. The caller chooses the order in which runnables run among touch events.
- The bodies of the abstract callbacks (lines 68-78) are not modelled. Their answers are parameters, and the trace records each call with its event arguments.
- The `View` argument of `onTouch` and the identity of the stored `MotionEvent` are not modelled. The down event is its position, so possible recycling of the event object by the platform is not modelled.
