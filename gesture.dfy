/** The touch listener of the small ball, as values: the state it keeps between
    events (Session), the events that drive it, the calls it makes (Output),
    and one step function per kind of event. The class in small_ball.dfy
    updates its fields exactly as these functions say; the lemmas in
    session_properties.dfy are about whole sequences of events. */
module Gesture {
  import opened ClampMath

  /** The five states of the listener's state machine. */
  datatype BallState = Idle | Press | DragMove | LongPress | LongDrag

  /** The named thresholds the listener reads: CLICK_TIME and LONG_PRESS_TIME
      in milliseconds, MOVE_SLOP and MAX_DISTANCE in screen units. */
  datatype Config = Config(clickTime: int, longPressTime: int, moveSlop: real, maxDistance: real)

  /** MAX_DISTANCE must be positive for the clamp to make sense (a zero or
      negative reach would divide by zero or flip the ball's direction). */
  predicate ValidConfig(cfg: Config) {
    cfg.maxDistance > 0.0
  }

  /** Calls the listener makes on its collaborators, in order. */
  datatype Output =
    | PostLongPress(delay: int)              // v.postDelayed(callback, LONG_PRESS_TIME)
    | UpdateLocationBy(dx: real, dy: real)   // FloatingX moves the whole overlay
    | Vibrate
    | HandleDirection(dx: real, dy: real)    // recorded, its body is not modelled
    | OpenMenu
    | PerformHome

  /** The events that reach the listener. Up and Cancel share one branch, so
      they are one event here. `dist` on Move is the value of hypot(dx, dy) for
      the displacement from the press origin. TimerFires is the deferred
      long-press callback running on the event thread. */
  datatype Event =
    | Down(time: int, rawX: real, rawY: real)
    | Move(rawX: real, rawY: real, dist: real)
    | UpOrCancel(time: int)
    | TimerFires

  /** The listener's captured variables and the ball's position (v.x, v.y). */
  datatype Session = Session(
    state: BallState,
    downTime: int,
    downRawX: real, downRawY: real,
    centerX: real, centerY: real,
    moved: bool,
    x: real, y: real)

  /** The ball is no farther than MAX_DISTANCE from its rest position. */
  predicate BallInReach(cfg: Config, s: Session) {
    var ox, oy := s.x - s.centerX, s.y - s.centerY;
    ox * ox + oy * oy <= cfg.maxDistance * cfg.maxDistance
  }

  /** What holds of every session once a Down has been seen: the ball is in
      reach, and a pressed ball has not moved beyond the slop (every Move that
      sets `moved` also takes the state out of PRESS, so between events PRESS
      implies !moved). */
  predicate SessionInvariant(cfg: Config, s: Session) {
    BallInReach(cfg, s) && (s.state == Press ==> !s.moved)
  }

  /** A Move event whose `dist` really is the length of its displacement. */
  predicate WellFormed(s: Session, e: Event) {
    e.Move? ==> IsHypot(e.dist, e.rawX - s.downRawX, e.rawY - s.downRawY)
  }

  /** ACTION_DOWN: start a new session whatever came before. The press is
      recorded, the rest position is where the ball is now, and the
      long-press callback is scheduled. */
  function OnDown(cfg: Config, s: Session, time: int, rawX: real, rawY: real): (r: (Session, seq<Output>))
    requires ValidConfig(cfg)
    ensures r.0.state == Press && !r.0.moved
    ensures r.0.downTime == time && r.0.downRawX == rawX && r.0.downRawY == rawY
    ensures r.0.centerX == s.x && r.0.centerY == s.y
    ensures r.0.x == s.x && r.0.y == s.y
    ensures SessionInvariant(cfg, r.0)
    ensures r.1 == [PostLongPress(cfg.longPressTime)]
  {
    (Session(Press, time, rawX, rawY, s.x, s.y, false, s.x, s.y), [PostLongPress(cfg.longPressTime)])
  }

  /** The deferred long-press callback. It re-reads the state: only a ball
      that is still pressed becomes long-pressed, and only then does it
      vibrate; nothing else about the session changes. */
  function OnTimer(s: Session): (r: (Session, seq<Output>))
    ensures r.0 == s.(state := r.0.state)
    ensures r.0.state != s.state <==> s.state == Press
    ensures r.0.state != s.state ==> r.0.state == LongPress
    ensures r.1 == if s.state == Press then [Vibrate] else []
  {
    if s.state == Press then (s.(state := LongPress), [Vibrate]) else (s, [])
  }

  /** ACTION_MOVE. `moved` becomes sticky-true once the displacement exceeds
      the slop, in every state. A pressed ball switches to dragging the whole
      overlay on any move, without a slop check; a long-pressed ball follows
      the pointer within MAX_DISTANCE of its rest position; in IDLE and
      DRAG_MOVE nothing but `moved` changes. */
  function OnMove(cfg: Config, s: Session, rawX: real, rawY: real, dist: real): (r: (Session, seq<Output>))
    requires ValidConfig(cfg)
    requires IsHypot(dist, rawX - s.downRawX, rawY - s.downRawY)
    ensures r.0.moved == (s.moved || dist > cfg.moveSlop)
    ensures r.0.downTime == s.downTime && r.0.downRawX == s.downRawX && r.0.downRawY == s.downRawY
    ensures r.0.centerX == s.centerX && r.0.centerY == s.centerY
    ensures s.state == Press ==>
      r.0.state == DragMove && r.0.x == s.x && r.0.y == s.y &&
      r.1 == [UpdateLocationBy(rawX - s.downRawX, rawY - s.downRawY)]
    ensures s.state == LongPress || s.state == LongDrag ==>
      r.0.state == LongDrag && BallInReach(cfg, r.0) &&
      (r.0.x, r.0.y) == Clamp(s.centerX, s.centerY, rawX - s.downRawX, rawY - s.downRawY, dist, cfg.maxDistance) &&
      (dist <= cfg.maxDistance ==> r.0.x - s.centerX == rawX - s.downRawX && r.0.y - s.centerY == rawY - s.downRawY) &&
      r.1 == [HandleDirection(rawX - s.downRawX, rawY - s.downRawY)]
    ensures s.state == Idle || s.state == DragMove ==>
      r.0.state == s.state && r.0.x == s.x && r.0.y == s.y && r.1 == []
  {
    var dx, dy := rawX - s.downRawX, rawY - s.downRawY;
    var s1 := s.(moved := s.moved || dist > cfg.moveSlop);
    match s.state
    case Press =>
      (s1.(state := DragMove), [UpdateLocationBy(dx, dy)])
    case LongPress | LongDrag =>
      ClampWithinMaxDistance(s.centerX, s.centerY, dx, dy, dist, cfg.maxDistance);
      var p := Clamp(s.centerX, s.centerY, dx, dy, dist, cfg.maxDistance);
      (s1.(state := LongDrag, x := p.0, y := p.1), [HandleDirection(dx, dy)])
    case _ =>
      (s1, [])
  }

  /** ACTION_UP and ACTION_CANCEL. At most one discrete action: the menu opens
      exactly on a quick unmoved press, the home action fires exactly on a
      long press that was never dragged, and no other action is ever
      produced. Then the ball goes back to its rest position and the machine
      returns to IDLE, whatever state it was in. */
  function OnUpOrCancel(cfg: Config, s: Session, time: int): (r: (Session, seq<Output>))
    requires ValidConfig(cfg)
    ensures r.0 == s.(state := Idle, x := s.centerX, y := s.centerY)
    ensures |r.1| <= 1
    ensures forall o :: o in r.1 ==> o == OpenMenu || o == PerformHome
    ensures OpenMenu in r.1 <==> s.state == Press && !s.moved && time - s.downTime < cfg.clickTime
    ensures PerformHome in r.1 <==> s.state == LongPress
  {
    var actions :=
      if s.state == Press && !s.moved && time - s.downTime < cfg.clickTime then [OpenMenu]
      else if s.state == LongPress then [PerformHome]
      else [];
    (s.(state := Idle, x := s.centerX, y := s.centerY), actions)
  }

  /** One event of any kind. Every (state, event) pair is handled; a Down
      always establishes the session invariant and every other event keeps
      it. */
  function Step(cfg: Config, s: Session, e: Event): (r: (Session, seq<Output>))
    requires ValidConfig(cfg) && WellFormed(s, e)
    ensures e.Down? || SessionInvariant(cfg, s) ==> SessionInvariant(cfg, r.0)
  {
    match e
    case Down(time, rawX, rawY) => OnDown(cfg, s, time, rawX, rawY)
    case Move(rawX, rawY, dist) => OnMove(cfg, s, rawX, rawY, dist)
    case UpOrCancel(time) => OnUpOrCancel(cfg, s, time)
    case TimerFires => OnTimer(s)
  }
}
