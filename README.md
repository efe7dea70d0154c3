# Small-ball gesture interpreter

A model of the touch listener behind the "small ball" of the floating overlay
in scrcpy-mobile (`docs/test.kt`). The small ball is the only surface of the overlay that
takes touches. Its listener is a five-state machine (IDLE, PRESS, DRAG_MOVE,
LONG_PRESS, LONG_DRAG). It turns one pointer's down, move and up/cancel events,
plus a deferred long-press callback, into these effects:

- overlay drags (`FloatingX.updateLocationBy`);
- a joystick-like ball that may stray at most MAX_DISTANCE from its rest
  position;
- haptic feedback (`vibrate`);
- the menu (`openMenu`) and the home action (`performHome`).

Files:

- `clamp_math.dfy` (module `ClampMath`): the distance clamp. `hypot` is
  replaced by a value `dist` whose square equals dx² + dy² (`IsHypot`), so the
  clamp is proved without square roots.
- `direction_table.dfy` (module `DirectionTable`): the table from drag direction
  to global action.
- `gesture.dfy` (module `Gesture`): the listener's captured variables as a
  `Session` value, with one step function per event. Each function's contract
  states what that event does.
- `session_properties.dfy` (module `SessionProperties`): `Run` feeds a sequence
  of events through the step functions. `RestPositionFixedInSession`,
  `MovedIsSticky`, `VibrateAtMostOncePerSession`,
  `OverlayDragAtMostOncePerSession` and `AtMostOneActionPerSession`
  are about one session, that is, an event sequence with no Down in it.
  `RunKeepsInvariant` holds for any sequence that starts with a Down, or from
  any state that already satisfies the session invariant. The scenario lemmas
  (`AnyMoveCancelsClick`, `LongPressThenReleaseGoesHome`,
  `EarlierCallbackLongPressesNextSession`) are fixed traces that include Downs.
- `small_ball.dfy` (module `TouchListener`): class `SmallBall`. Its fields are
  the captured variables and the ball position, plus an `outputs` sequence of
  the calls made on collaborators. It has one method per event. Each method
  updates the fields in place, and its postcondition ties the new state to the
  matching step function.

Up and Cancel share one branch in the source, so they are one event here
(`UpOrCancel`). The deferred callback is an explicit `TimerFires` event. Like
the source, it re-reads `state` before acting. Scheduling the callback is
recorded as a `PostLongPress(LONG_PRESS_TIME)` output. Coordinates are `real`
and timestamps are `int`; both arrive on the events. The thresholds
CLICK_TIME, LONG_PRESS_TIME, MOVE_SLOP and MAX_DISTANCE are a `Config` value,
because the listener text does not contain their declarations. The design
notes recommend 200 ms for CLICK_TIME and 400 ms for LONG_PRESS_TIME (lines
235-236) and give only ranges for the other two. MAX_DISTANCE must be
positive.

Where the design notes in the same file describe behaviour the listener code
does not have, the model follows the code:

- Every Move in PRESS moves the whole overlay and switches to DRAG_MOVE. The
  code has no slop check there, though the notes require one (lines 141-150).
  So even a move of zero length stops a quick release from opening the menu
  (`AnyMoveCancelsClick`).
- The overlay is dragged only once per press. `updateLocationBy(dx, dy)` is
  called on the Move that leaves PRESS, with the offset from the press point
  (lines 35-38). Later Moves in DRAG_MOVE do nothing (line 53). So the overlay
  jumps once and then stops following the finger, while the notes say the
  whole window moves with it (lines 141-150)
  (`OverlayDragAtMostOncePerSession`).
- The notes measure the joystick offset from the ball's rest position
  (`touchX - centerX`, lines 199-200). The code measures it from the press
  point (`event.rawX - downRawX`, lines 27-28). So the ball moves along the
  finger's displacement since the press, not toward where the finger is now.
- Every Move that sets `moved` also takes the state out of PRESS (lines 31
  and 35-38). So between events PRESS implies `!moved`, and the `!moved` test
  on release never decides anything (`ClickIgnoresMovedFlag`).
- A release from LONG_DRAG or DRAG_MOVE fires no action. Direction handling
  happens on each move, through `handleDirection`.
- A Cancel is treated exactly like an Up. It may open the menu or perform the
  home action.

## Model

| member | source | states |
|---|---|---|
| ClampMath.Ratio | docs/test.kt:44-45 | the scale factor lies in (0, 1], and it shrinks an offset of length `dist` to length min(dist, MAX_DISTANCE) |
| ClampMath.RatioAgreesWithDesignFormula | docs/test.kt:198-207 | the listener's guarded ratio equals the design formula min(1, MAX_DISTANCE / distance) for every positive distance; at distance 0 it is 1, with no division |
| ClampMath.ClampWithinMaxDistance | docs/test.kt:44-48 | the ball ends exactly min(dist, MAX_DISTANCE) from its rest position, so never farther than MAX_DISTANCE; within reach it sits exactly at rest position + (dx, dy) |
| ClampMath.Clamp | docs/test.kt:44-48 | the ball is put at rest position + `Offset`; its bounds are in `ClampWithinMaxDistance`, its direction in `ClampKeepsDirection` |
| ClampMath.ClampKeepsDirection | docs/test.kt:44-48 | the scaled offset stays parallel to (dx, dy); on each axis it has the sign of the pointer offset, is zero exactly when that is, and is no longer than it, so the ball moves along the finger's displacement since the press |
| DirectionTable.ActionFor | docs/test.kt:176-181 | Left→Back, Right→Recent, Up→Home, Down→Notifications; one-to-one and onto, via `DirectionFor` |
| DirectionTable.DirectionFor | docs/test.kt:176-181 | every action (Back, Recent, Home, Notifications) comes from exactly one direction, so the Left→Back, Right→Recent, Up→Home, Down→Notifications table is a one-to-one, total map |
| Gesture.OnDown | docs/test.kt:5-21 | whatever the previous state, a press starts a fresh session: PRESS, `moved` cleared, press time and origin recorded, rest position = current ball position, long-press callback posted with LONG_PRESS_TIME |
| Gesture.OnTimer | docs/test.kt:16-21 | the callback changes only `state`; it changes it exactly when the state is PRESS, to LONG_PRESS, and it vibrates exactly then |
| Gesture.OnMove | docs/test.kt:26-57 | `moved` becomes (old `moved` or dist > MOVE_SLOP) in every state. PRESS → DRAG_MOVE with one `updateLocationBy(dx, dy)`, ball position unchanged. LONG_PRESS/LONG_DRAG → LONG_DRAG with the ball at the clamp of the offset, within MAX_DISTANCE of rest, exactly at the offset when within reach, and one `handleDirection(dx, dy)`. IDLE/DRAG_MOVE keep state and position and make no call. Press data and rest position never change |
| Gesture.OnUpOrCancel | docs/test.kt:59-88 | the machine always ends in IDLE with the ball back at rest. At most one call is made and it is a menu or home action. `openMenu` fires exactly when state is PRESS, `moved` is clear and the press lasted less than CLICK_TIME. `performHome` fires exactly when state is LONG_PRESS |
| Gesture.Step | docs/test.kt:1-90 | every (state, event) pair is handled. A Down establishes the session invariant (ball in reach, PRESS ⇒ not moved) and every other event preserves it |
| SessionProperties.RunKeepsInvariant | docs/test.kt:1-90 | after a Down, any sequence of events keeps the ball within MAX_DISTANCE of its rest position and keeps `moved` clear while in PRESS |
| SessionProperties.RestPositionFixedInSession | docs/test.kt:5-14 | within a session, press time, press origin and rest position never change |
| SessionProperties.MovedIsSticky | docs/test.kt:13-31 | within a session `moved` is never cleared. At the end it is set exactly when it was already set or some Move went beyond MOVE_SLOP |
| SessionProperties.VibrateAtMostOncePerSession | docs/test.kt:16-21 | a session vibrates at most once, and only if it is still in PRESS when the sequence starts |
| SessionProperties.OverlayDragAtMostOncePerSession | docs/test.kt:35-53 | a session makes at most one `updateLocationBy` call, and only if it is still in PRESS when the sequence starts |
| SessionProperties.AtMostOneActionPerSession | docs/test.kt:59-86 | a session makes at most one `openMenu`/`performHome` call in total, and none once it is in IDLE |
| SessionProperties.ClickIgnoresMovedFlag | docs/test.kt:65-71 | in any state reached after a Down, the menu opens exactly on a release from PRESS within CLICK_TIME; the `!moved` test never decides anything |
| SessionProperties.AnyMoveCancelsClick | docs/test.kt:35-38 | Down, one Move of any length (zero included), then Up: the calls are the posted callback and one overlay drag, and no menu |
| SessionProperties.LongPressThenReleaseGoesHome | docs/test.kt:73-76 | Down, the long-press callback, then Up: the calls are the posted callback, one vibration and the home action |
| SessionProperties.EarlierCallbackLongPressesNextSession | docs/test.kt:13-21 | a quick click opens the menu; if the callback it left pending runs right after the next Down, a release at the press time performs the home action instead of opening the menu |
| TouchListener.SmallBall.Down | docs/test.kt:5-24 | sets the fields to `OnDown` of the old fields: PRESS, not moved, press recorded, rest = current position; appends the posted callback; keeps the session invariant |
| TouchListener.SmallBall.TimerFires | docs/test.kt:16-21 | PRESS becomes LONG_PRESS with one `Vibrate` appended; in every other state nothing changes; no other field changes |
| TouchListener.SmallBall.Move | docs/test.kt:26-57 | updates the fields and appends the calls exactly as `OnMove` of the old fields, including the state transitions and the clamp; keeps the session invariant |
| TouchListener.SmallBall.UpOrCancel | docs/test.kt:59-88 | ends in IDLE with the ball at (centerX, centerY); appends exactly the actions of `OnUpOrCancel` (at most one) |

## Left out

- Android plumbing is not modelled. This covers the `MotionEvent`/`View` types
  and the `true` the listener returns.
- The snap-back animation (`v.animate()…setDuration(160)`) is modelled only by
  its end position: the ball is set to its rest position at once. So the model
  does not capture a Down during the 160 ms animation, which in the source
  records the ball's mid-flight position as the new rest position (line 10).
  The rest position can therefore drift between sessions in the source but not
  in the model.
- `v.postDelayed` scheduling is recorded as an output, and the callback is an
  explicit `TimerFires` event that may arrive at any point. Delays and clocks
  are not modelled. Timestamps arrive on the events in place of
  `System.currentTimeMillis()`.
- `v.removeCallbacks(null)` is not modelled. On Android a null action matches
  no posted callback, so the call cancels nothing and a callback can outlive
  its press. The model covers this reading and the one where the call does
  cancel: `TimerFires` may arrive at any point, also after a later Down, and
  the proofs rely only on the state check inside the callback
  (`EarlierCallbackLongPressesNextSession`).
- The bodies of `vibrate`, `openMenu`, `performHome`,
  `FloatingX.updateLocationBy` and `handleDirection` are not part of this
  model. Each call is only recorded in `outputs`. This leaves out the
  direction classifier inside `handleDirection` and the actions it triggers;
  only the direction→action table is modelled.
- IEEE float rounding of `hypot` and of the division by `dist` is left out.
  Coordinates are exact reals, and `dist` is the exact length.
- The timestamps are unbounded integers, so an overflow of the Kotlin `Long`
  subtraction `upTime - downTime` is not modelled.
- Screen-edge snapping of the overlay is done by the FloatingX library and is
  not part of this model.
- The declarations and initial values of the captured variables are not part
  of the source text. The `SmallBall` constructor starts IDLE, with the rest
  position equal to the ball's initial position.
- The prose design notes are modelled only where they give the state enum,
  the clamp formula and the direction table.
