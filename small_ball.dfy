/** The small ball's touch listener as the object it is: the variables the
    listener captures and the ball's position are fields that each event
    updates in place, and every call the listener makes on its collaborators
    is appended to `outputs`. Each method does what the matching step
    function in module Gesture says, which is where the properties are
    proved. */
module TouchListener {
  import opened ClampMath
  import opened Gesture

  class SmallBall {
    const cfg: Config
    var state: BallState
    var downTime: int
    var downRawX: real
    var downRawY: real
    var centerX: real
    var centerY: real
    var moved: bool
    var x: real
    var y: real
    var outputs: seq<Output>

    /** The listener's variables as a Session value. */
    function Snapshot(): Session
      reads this
    {
      Session(state, downTime, downRawX, downRawY, centerX, centerY, moved, x, y)
    }

    ghost predicate Valid()
      reads this
    {
      ValidConfig(cfg) && SessionInvariant(cfg, Snapshot())
    }

    /** A ball at rest at (x0, y0), idle, with no calls made yet. */
    constructor (cfg: Config, x0: real, y0: real)
      requires ValidConfig(cfg)
      ensures Valid() && this.cfg == cfg
      ensures state == Idle && !moved && x == x0 && y == y0 && centerX == x0 && centerY == y0
      ensures outputs == []
    {
      this.cfg := cfg;
      state := Idle;
      downTime := 0;
      downRawX, downRawY := 0.0, 0.0;
      centerX, centerY := x0, y0;
      moved := false;
      x, y := x0, y0;
      outputs := [];
    }

    /** ACTION_DOWN at `time`, pointer at (rawX, rawY). */
    method Down(time: int, rawX: real, rawY: real)
      requires Valid()
      modifies this
      ensures Valid()
      ensures state == Press && !moved
      ensures downTime == time && downRawX == rawX && downRawY == rawY
      ensures centerX == old(x) && centerY == old(y) && x == old(x) && y == old(y)
      ensures outputs == old(outputs) + [PostLongPress(cfg.longPressTime)]
      ensures Snapshot() == OnDown(cfg, old(Snapshot()), time, rawX, rawY).0
    {
      downTime := time;
      downRawX := rawX;
      downRawY := rawY;
      centerX := x;
      centerY := y;
      moved := false;
      state := Press;
      outputs := outputs + [PostLongPress(cfg.longPressTime)];
    }

    /** The long-press callback posted by Down, running on the event thread. */
    method TimerFires()
      requires Valid()
      modifies this
      ensures Valid()
      ensures state == (if old(state) == Press then LongPress else old(state))
      ensures outputs == old(outputs) + (if old(state) == Press then [Vibrate] else [])
      ensures Snapshot() == old(Snapshot()).(state := state)
      ensures Snapshot() == OnTimer(old(Snapshot())).0
    {
      if state == Press {
        state := LongPress;
        outputs := outputs + [Vibrate];
      }
    }

    /** ACTION_MOVE, pointer at (rawX, rawY); `dist` is hypot(dx, dy) of the
        displacement from the press origin. */
    method Move(rawX: real, rawY: real, dist: real)
      requires Valid()
      requires IsHypot(dist, rawX - downRawX, rawY - downRawY)
      modifies this
      ensures Valid()
      ensures moved == (old(moved) || dist > cfg.moveSlop)
      ensures old(state) == Press ==> state == DragMove
      ensures old(state) == LongPress || old(state) == LongDrag ==> state == LongDrag
      ensures old(state) == Idle || old(state) == DragMove ==> state == old(state)
      ensures Snapshot() == OnMove(cfg, old(Snapshot()), rawX, rawY, dist).0
      ensures outputs == old(outputs) + OnMove(cfg, old(Snapshot()), rawX, rawY, dist).1
    {
      ghost var step := Step(cfg, Snapshot(), Gesture.Move(rawX, rawY, dist));
      var dx := rawX - downRawX;
      var dy := rawY - downRawY;
      if dist > cfg.moveSlop {
        moved := true;
      }
      match state {
        case Press =>
          outputs := outputs + [UpdateLocationBy(dx, dy)];
          state := DragMove;
        case LongPress | LongDrag =>
          state := LongDrag;
          var p := Clamp(centerX, centerY, dx, dy, dist, cfg.maxDistance);
          x, y := p.0, p.1;
          outputs := outputs + [HandleDirection(dx, dy)];
        case _ =>
      }
      assert Snapshot() == step.0;
    }

    /** ACTION_UP or ACTION_CANCEL at `time`. */
    method UpOrCancel(time: int)
      requires Valid()
      modifies this
      ensures Valid()
      ensures state == Idle && x == centerX && y == centerY
      ensures outputs == old(outputs) + OnUpOrCancel(cfg, old(Snapshot()), time).1
      ensures Snapshot() == OnUpOrCancel(cfg, old(Snapshot()), time).0
    {
      var duration := time - downTime;
      if state == Press && !moved && duration < cfg.clickTime {
        outputs := outputs + [OpenMenu];
      } else if state == LongPress {
        outputs := outputs + [PerformHome];
      }
      x, y := centerX, centerY;
      state := Idle;
    }
  }
}
