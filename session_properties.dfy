/** Properties of the listener over whole sequences of events. A session is
    what happens between one Down and the next. The per-session lemmas
    (RestPositionFixedInSession, MovedIsSticky, VibrateAtMostOncePerSession,
    OverlayDragAtMostOncePerSession, AtMostOneActionPerSession) speak of an
    event sequence with no Down in it, started from any state, so they hold
    whatever the order of moves, timer callbacks and releases inside a
    session. RunKeepsInvariant allows Downs anywhere; ClickIgnoresMovedFlag
    is about one release; the scenario lemmas at the end are fixed traces
    that start with a Down. */
module SessionProperties {
  import opened ClampMath
  import opened Gesture

  /** Every Move in the sequence carries the true hypot of its displacement. */
  predicate Admissible(cfg: Config, s: Session, es: seq<Event>)
    requires ValidConfig(cfg)
    decreases |es|
  {
    es == [] || (WellFormed(s, es[0]) && Admissible(cfg, Step(cfg, s, es[0]).0, es[1..]))
  }

  /** Feed the events to the listener one by one: the final state and every
      call made on the way, in order. */
  function Run(cfg: Config, s: Session, es: seq<Event>): (Session, seq<Output>)
    requires ValidConfig(cfg) && Admissible(cfg, s, es)
    decreases |es|
  {
    if es == [] then (s, [])
    else
      var first := Step(cfg, s, es[0]);
      var rest := Run(cfg, first.0, es[1..]);
      (rest.0, first.1 + rest.1)
  }

  predicate NoDown(es: seq<Event>) {
    forall i :: 0 <= i < |es| ==> !es[i].Down?
  }

  /** Once a Down has been seen, the ball stays within MAX_DISTANCE of its
      rest position, and a pressed ball has never moved beyond the slop,
      after any sequence of events. */
  lemma {:induction false} RunKeepsInvariant(cfg: Config, s: Session, es: seq<Event>)
    requires ValidConfig(cfg) && Admissible(cfg, s, es)
    requires SessionInvariant(cfg, s) || (es != [] && es[0].Down?)
    ensures SessionInvariant(cfg, Run(cfg, s, es).0)
    decreases |es|
  {
    if es != [] {
      RunKeepsInvariant(cfg, Step(cfg, s, es[0]).0, es[1..]);
    }
  }

  /** Within a session the press time, the press origin and the rest position
      never change. */
  lemma {:induction false} RestPositionFixedInSession(cfg: Config, s: Session, es: seq<Event>)
    requires ValidConfig(cfg) && Admissible(cfg, s, es) && NoDown(es)
    ensures var f := Run(cfg, s, es).0;
            f.downTime == s.downTime && f.downRawX == s.downRawX && f.downRawY == s.downRawY &&
            f.centerX == s.centerX && f.centerY == s.centerY
    decreases |es|
  {
    if es != [] {
      RestPositionFixedInSession(cfg, Step(cfg, s, es[0]).0, es[1..]);
    }
  }

  /** Within a session `moved` is never cleared, and at the end it is set
      exactly when it was set at the start or some Move went beyond the slop. */
  lemma {:induction false} MovedIsSticky(cfg: Config, s: Session, es: seq<Event>)
    requires ValidConfig(cfg) && Admissible(cfg, s, es) && NoDown(es)
    ensures Run(cfg, s, es).0.moved <==>
            s.moved || exists i :: 0 <= i < |es| && es[i].Move? && es[i].dist > cfg.moveSlop
    decreases |es|
  {
    if es != [] {
      var s1 := Step(cfg, s, es[0]).0;
      MovedIsSticky(cfg, s1, es[1..]);
      assert s1.moved == (s.moved || (es[0].Move? && es[0].dist > cfg.moveSlop));
      if exists i :: 0 <= i < |es[1..]| && es[1..][i].Move? && es[1..][i].dist > cfg.moveSlop {
        var i :| 0 <= i < |es[1..]| && es[1..][i].Move? && es[1..][i].dist > cfg.moveSlop;
        assert es[i + 1] == es[1..][i];
      }
      if exists i :: 0 <= i < |es| && es[i].Move? && es[i].dist > cfg.moveSlop {
        var i :| 0 <= i < |es| && es[i].Move? && es[i].dist > cfg.moveSlop;
        if i > 0 {
          assert es[1..][i - 1] == es[i];
        }
      }
    }
  }

  /** The deferred callback vibrates at most once per session, and only if
      the session is still pressed when the sequence starts: after it fires
      or after any move or release, the state never returns to PRESS. */
  lemma {:induction false} VibrateAtMostOncePerSession(cfg: Config, s: Session, es: seq<Event>)
    requires ValidConfig(cfg) && Admissible(cfg, s, es) && NoDown(es)
    ensures multiset(Run(cfg, s, es).1)[Vibrate] <= if s.state == Press then 1 else 0
    decreases |es|
  {
    if es != [] {
      var first := Step(cfg, s, es[0]);
      VibrateAtMostOncePerSession(cfg, first.0, es[1..]);
      assert multiset(first.1)[Vibrate] <= if s.state == Press then 1 else 0;
      assert multiset(first.1)[Vibrate] == 1 ==> first.0.state != Press;
      assert s.state != Press ==> first.0.state != Press;
    }
  }

  /** The number of overlay drags among the calls. */
  function DragCount(out: seq<Output>): nat {
    if out == [] then 0
    else (if out[0].UpdateLocationBy? then 1 else 0) + DragCount(out[1..])
  }

  lemma {:induction false} DragCountAppend(a: seq<Output>, b: seq<Output>)
    ensures DragCount(a + b) == DragCount(a) + DragCount(b)
    decreases |a|
  {
    if a != [] {
      assert (a + b)[0] == a[0] && (a + b)[1..] == a[1..] + b;
      DragCountAppend(a[1..], b);
    } else {
      assert a + b == b;
    }
  }

  /** The overlay is dragged at most once per session, and only if the
      session is still pressed when the sequence starts: the Move that drags
      it leaves PRESS, and later moves in DRAG_MOVE do nothing. */
  lemma {:induction false} OverlayDragAtMostOncePerSession(cfg: Config, s: Session, es: seq<Event>)
    requires ValidConfig(cfg) && Admissible(cfg, s, es) && NoDown(es)
    ensures DragCount(Run(cfg, s, es).1) <= if s.state == Press then 1 else 0
    decreases |es|
  {
    if es != [] {
      var first := Step(cfg, s, es[0]);
      OverlayDragAtMostOncePerSession(cfg, first.0, es[1..]);
      DragCountAppend(first.1, Run(cfg, first.0, es[1..]).1);
      assert DragCount(first.1) == (if s.state == Press && es[0].Move? then 1 else 0);
      assert s.state == Press && es[0].Move? ==> first.0.state != Press;
      assert s.state != Press ==> first.0.state != Press;
    }
  }

  /** A session produces at most one discrete action (menu or home), and none
      at all once it is back in IDLE: the first release returns the machine
      to IDLE, where moves, callbacks and further releases do nothing. */
  lemma {:induction false} AtMostOneActionPerSession(cfg: Config, s: Session, es: seq<Event>)
    requires ValidConfig(cfg) && Admissible(cfg, s, es) && NoDown(es)
    ensures var out := Run(cfg, s, es).1;
            multiset(out)[OpenMenu] + multiset(out)[PerformHome] <= if s.state == Idle then 0 else 1
    decreases |es|
  {
    if es != [] {
      var first := Step(cfg, s, es[0]);
      AtMostOneActionPerSession(cfg, first.0, es[1..]);
      var n := multiset(first.1)[OpenMenu] + multiset(first.1)[PerformHome];
      if es[0].UpOrCancel? {
        assert first.0.state == Idle;
        assert n <= if s.state == Idle then 0 else 1;
      } else {
        assert n == 0;
        assert first.0.state == Idle <==> s.state == Idle;
      }
    }
  }

  /** In any session reached after a Down, the `!moved` test on release is
      redundant: the menu opens exactly on a release from PRESS within
      CLICK_TIME. */
  lemma ClickIgnoresMovedFlag(cfg: Config, s: Session, time: int)
    requires ValidConfig(cfg) && SessionInvariant(cfg, s)
    ensures OpenMenu in OnUpOrCancel(cfg, s, time).1 <==>
            s.state == Press && time - s.downTime < cfg.clickTime
  {
  }

  /** A single Move between press and release, however small (the pointer
      may not have moved at all), turns the press into an overlay drag, so a
      quick release no longer opens the menu. */
  lemma AnyMoveCancelsClick(cfg: Config, s: Session, t0: int, x0: real, y0: real,
                            x1: real, y1: real, dist: real, t1: int)
    requires ValidConfig(cfg) && IsHypot(dist, x1 - x0, y1 - y0)
    ensures Admissible(cfg, s, [Down(t0, x0, y0), Move(x1, y1, dist), UpOrCancel(t1)])
    ensures Run(cfg, s, [Down(t0, x0, y0), Move(x1, y1, dist), UpOrCancel(t1)]).1 ==
            [PostLongPress(cfg.longPressTime), UpdateLocationBy(x1 - x0, y1 - y0)]
  {
    var es := [Down(t0, x0, y0), Move(x1, y1, dist), UpOrCancel(t1)];
    var r1 := OnDown(cfg, s, t0, x0, y0);
    var r2 := OnMove(cfg, r1.0, x1, y1, dist);
    var r3 := OnUpOrCancel(cfg, r2.0, t1);
    assert r2.0.state == DragMove && r3.1 == [];
    assert es[1..] == [es[1], es[2]] && es[1..][1..] == [es[2]] && [es[2]][1..] == [];
    assert Admissible(cfg, r3.0, []);
    assert Admissible(cfg, r2.0, [es[2]]);
    assert Admissible(cfg, r1.0, es[1..]);
    assert Run(cfg, r3.0, []) == (r3.0, []) && r3.1 + [] == r3.1;
    assert Run(cfg, r2.0, [es[2]]) == (r3.0, r3.1);
    assert Run(cfg, r1.0, es[1..]) == (r3.0, r2.1 + r3.1);
  }

  /** A press held past the long-press callback and released without moving
      vibrates once and then performs the home action. */
  lemma LongPressThenReleaseGoesHome(cfg: Config, s: Session, t0: int, x0: real, y0: real, t1: int)
    requires ValidConfig(cfg)
    ensures Admissible(cfg, s, [Down(t0, x0, y0), TimerFires, UpOrCancel(t1)])
    ensures Run(cfg, s, [Down(t0, x0, y0), TimerFires, UpOrCancel(t1)]).1 ==
            [PostLongPress(cfg.longPressTime), Vibrate, PerformHome]
  {
    var es := [Down(t0, x0, y0), TimerFires, UpOrCancel(t1)];
    var r1 := OnDown(cfg, s, t0, x0, y0);
    var r2 := OnTimer(r1.0);
    var r3 := OnUpOrCancel(cfg, r2.0, t1);
    assert r2.0.state == LongPress && r3.1 == [PerformHome];
    assert es[1..] == [es[1], es[2]] && es[1..][1..] == [es[2]] && [es[2]][1..] == [];
    assert Admissible(cfg, r3.0, []);
    assert Admissible(cfg, r2.0, [es[2]]);
    assert Admissible(cfg, r1.0, es[1..]);
    assert Run(cfg, r3.0, []) == (r3.0, []) && r3.1 + [] == r3.1;
    assert Run(cfg, r2.0, [es[2]]) == (r3.0, r3.1);
    assert Run(cfg, r1.0, es[1..]) == (r3.0, r2.1 + r3.1);
  }

  /** A quick click opens the menu, and the callback that click posted is
      still pending: nothing ties a callback to the press that posted it. If
      it runs just after the next Down, that press becomes a long press at
      once, so a release at the very time of the press performs the home
      action instead of opening the menu. */
  lemma EarlierCallbackLongPressesNextSession(cfg: Config, s: Session, t0: int, x0: real, y0: real,
                                              t1: int, t2: int, x2: real, y2: real)
    requires ValidConfig(cfg) && t1 - t0 < cfg.clickTime
    ensures Admissible(cfg, s, [Down(t0, x0, y0), UpOrCancel(t1), Down(t2, x2, y2), TimerFires, UpOrCancel(t2)])
    ensures Run(cfg, s, [Down(t0, x0, y0), UpOrCancel(t1), Down(t2, x2, y2), TimerFires, UpOrCancel(t2)]).1 ==
            [PostLongPress(cfg.longPressTime), OpenMenu, PostLongPress(cfg.longPressTime), Vibrate, PerformHome]
  {
    var es := [Down(t0, x0, y0), UpOrCancel(t1), Down(t2, x2, y2), TimerFires, UpOrCancel(t2)];
    var r1 := OnDown(cfg, s, t0, x0, y0);
    var r2 := OnUpOrCancel(cfg, r1.0, t1);
    assert r2.1 == [OpenMenu];
    var tail := [Down(t2, x2, y2), TimerFires, UpOrCancel(t2)];
    assert es[1..] == [es[1]] + tail && es[1..][1..] == tail;
    LongPressThenReleaseGoesHome(cfg, r2.0, t2, x2, y2, t2);
    assert Admissible(cfg, r1.0, es[1..]);
    assert Run(cfg, r1.0, es[1..]) == (Run(cfg, r2.0, tail).0, r2.1 + Run(cfg, r2.0, tail).1);
  }
}
