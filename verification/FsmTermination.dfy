// Every move comes to an end: without commands the state graph is acyclic and
// every timed state is left in time.

module FsmTermination {
  import opened FsmModel
  import opened FsmSafety

  /** How far a state is from IDLE in the command-free graph. */
  function Rank(s: State): nat {
    match s
    case IDLE => 0
    case JACK_DOWN => 1
    case CALIBRATE_JACK_MOVE | CALIBRATE_DRIVE_MOVE => 1
    case UNDO_JACK_START => 2
    case DRIVE_END_DELAY => 3
    case DRIVE => 4
    case DRIVE_FLUFF_START => 5
    case DRIVE_START_DELAY => 6
    case JACK_UP => 7
    case JACK_UP_START => 8
    case MOVE_JACK_SETTLE => 9
    case MOVE_JACK_RETRACT => 10
    case MOVE_START_DELAY => 11
    case CALIBRATE_JACK_DELAY | CALIBRATE_DRIVE_DELAY => 12
  }

  predicate WaitsForCommand(s: State) {
    s == IDLE || s == CALIBRATE_JACK_DELAY || s == CALIBRATE_DRIVE_DELAY
  }

  /** The command-free transition graph is acyclic. */
  lemma RankFalls(m: Fsm, i: Input, p: Params)
    ensures Transition(m, i, p).state == m.state || Rank(Transition(m, i, p).state) < Rank(m.state)
    ensures WaitsForCommand(m.state) ==> Transition(m, i, p).state == m.state
  {
  }

  /** A state that waits on its timer is left once the timer is done, and its
      timer does not move while it is not; UNDO waits for the jack fuse. */
  lemma TimedStatesLeave(m: Fsm, i: Input, p: Params)
    requires !WaitsForCommand(m.state)
    requires Transition(m, i, p).state == m.state
    ensures if m.state == UNDO_JACK_START then i.jackTrip
            else m.now < m.timerEnd && Transition(m, i, p).timerEnd == m.timerEnd
  {
  }

  // ---- Infinite runs -----------------------------------------------------------------

  type Trace = nat -> Input

  /** The world after n ticks of the trace. */
  function At(w: World, t: Trace, p: Params, n: nat): World {
    if n == 0 then w else Tick(At(w, t, p, n - 1), t(n - 1), p)
  }

  /** No commands, and a clock that advances. */
  ghost predicate Uncommanded(w: World, t: Trace) {
    && w.fsm.enabled
    && (forall n: nat :: t(n).cmds == [])
    && w.fsm.now < t(0).now
    && (forall n: nat :: t(n).now < t(n + 1).now)
  }

  /** One tick without commands. */
  lemma {:induction false} QuietTick(w: World, i: Input, p: Params)
    requires w.fsm.enabled && i.cmds == []
    ensures var v := Tick(w, i, p).fsm;
            && v.enabled && v.now == i.now
            && (v.state == w.fsm.state || Rank(v.state) < Rank(w.fsm.state))
            && (WaitsForCommand(w.fsm.state) ==> v.state == w.fsm.state)
            && (!WaitsForCommand(w.fsm.state) && v.state == w.fsm.state ==>
                  if v.state == UNDO_JACK_START then i.jackTrip
                  else i.now < w.fsm.timerEnd && v.timerEnd == w.fsm.timerEnd)
  {
    var d := Drained(w.fsm, i, p);
    ExternalsKeep(w.fsm, i.before);
    assert d.state == w.fsm.state && d.timerEnd == w.fsm.timerEnd && d.now == i.now;
    TickKeepsEnabled(w, i, p);
    RankFalls(d, i, p);
    if !WaitsForCommand(d.state) && Transition(d, i, p).state == d.state {
      TimedStatesLeave(d, i, p);
    }
    TransitionKeeps(d, i, p);
    ExternalsKeep(Moved(w.fsm, i, p), i.mid);
  }

  lemma {:induction false} Running(w: World, t: Trace, p: Params, n: nat)
    requires Uncommanded(w, t)
    ensures At(w, t, p, n).fsm.enabled && At(w, t, p, n).fsm.now < t(n).now
  {
    if n > 0 {
      Running(w, t, p, n - 1);
      QuietTick(At(w, t, p, n - 1), t(n - 1), p);
      assert t(n - 1).now < t(n - 1 + 1).now;
    }
  }

  /** Once the state waits for a command it stays. */
  lemma {:induction false} Waits(w: World, t: Trace, p: Params, n: nat, k: nat)
    requires Uncommanded(w, t) && n <= k
    requires WaitsForCommand(At(w, t, p, n).fsm.state)
    ensures At(w, t, p, k).fsm.state == At(w, t, p, n).fsm.state
    decreases k
  {
    if n < k {
      Waits(w, t, p, n, k - 1);
      Running(w, t, p, k - 1);
      QuietTick(At(w, t, p, k - 1), t(k - 1), p);
    }
  }

  /** Without commands a calibration delay is never entered. */
  lemma {:induction false} NeverDelays(w: World, t: Trace, p: Params, n: nat)
    requires Uncommanded(w, t) && Rank(w.fsm.state) < 12
    ensures Rank(At(w, t, p, n).fsm.state) < 12
  {
    if n > 0 {
      NeverDelays(w, t, p, n - 1);
      Running(w, t, p, n - 1);
      QuietTick(At(w, t, p, n - 1), t(n - 1), p);
    }
  }

  /** The device hangs in UNDO from tick n on: the jack fuse never clears. */
  ghost predicate HangsAt(w: World, t: Trace, p: Params, n: nat) {
    At(w, t, p, n).fsm.state == UNDO_JACK_START && forall k :: n <= k ==> t(k).jackTrip
  }

  /** The time the current state may still take: to the timer's end, or, in
      UNDO, to the tick at which the jack fuse is next seen clear. */
  function Patience(m: Fsm, n: nat, clear: nat): nat {
    if m.state == UNDO_JACK_START then (if clear >= n then clear - n else 0)
    else if m.timerEnd > m.now then m.timerEnd - m.now else 0
  }

  /** clear is a tick from n on at which the jack fuse is clear, when the
      state before tick n is UNDO. */
  ghost predicate ClearsAt(w: World, t: Trace, p: Params, n: nat, clear: nat) {
    At(w, t, p, n).fsm.state == UNDO_JACK_START ==> clear >= n && !t(clear).jackTrip
  }

  lemma Clears(w: World, t: Trace, p: Params, n: nat) returns (clear: nat)
    requires !HangsAt(w, t, p, n)
    ensures ClearsAt(w, t, p, n, clear)
  {
    clear := 0;
    if At(w, t, p, n).fsm.state == UNDO_JACK_START {
      clear :| n <= clear && !t(clear).jackTrip;
    }
  }

  /** A tick that does not change the state brings it closer to its end. */
  lemma {:induction false} PatienceFalls(w: World, t: Trace, p: Params, n: nat, clear: nat)
    requires Uncommanded(w, t) && ClearsAt(w, t, p, n, clear)
    requires !WaitsForCommand(At(w, t, p, n).fsm.state)
    ensures var v, v' := At(w, t, p, n).fsm, At(w, t, p, n + 1).fsm;
            && (v'.state == v.state ==>
                  Patience(v', n + 1, clear) < Patience(v, n, clear) && ClearsAt(w, t, p, n + 1, clear))
            && (v'.state != v.state ==> Rank(v'.state) < Rank(v.state))
  {
    Running(w, t, p, n);
    QuietTick(At(w, t, p, n), t(n), p);
  }

  /** From tick n on, IDLE is reached. */
  lemma {:induction false} ComesToIdle(w: World, t: Trace, p: Params, n: nat, clear: nat) returns (k: nat)
    requires Uncommanded(w, t) && Rank(w.fsm.state) < 12
    requires forall j: nat :: !HangsAt(w, t, p, j)
    requires ClearsAt(w, t, p, n, clear)
    ensures At(w, t, p, k).fsm.state == IDLE
    decreases Rank(At(w, t, p, n).fsm.state), Patience(At(w, t, p, n).fsm, n, clear)
  {
    k := n;
    NeverDelays(w, t, p, n);
    if At(w, t, p, n).fsm.state != IDLE {
      PatienceFalls(w, t, p, n, clear);
      var c := clear;
      if At(w, t, p, n + 1).fsm.state != At(w, t, p, n).fsm.state {
        c := Clears(w, t, p, n + 1);
      }
      k := ComesToIdle(w, t, p, n + 1, c);
    }
  }

  /** Stuck: waiting for a calibration command, or for a fuse that never
      clears. */
  ghost predicate Stuck(w: World, t: Trace, p: Params) {
    || w.fsm.state == CALIBRATE_JACK_DELAY
    || w.fsm.state == CALIBRATE_DRIVE_DELAY
    || exists n: nat :: HangsAt(w, t, p, n)
  }

  lemma {:induction false} HangingStays(w: World, t: Trace, p: Params, n: nat, k: nat)
    requires Uncommanded(w, t) && HangsAt(w, t, p, n) && n <= k
    ensures At(w, t, p, k).fsm.state == UNDO_JACK_START
    decreases k
  {
    if n < k {
      HangingStays(w, t, p, n, k - 1);
      HungTick(At(w, t, p, k - 1), t(k - 1), p);
      Running(w, t, p, k - 1);
    }
  }

  lemma HungTick(w: World, i: Input, p: Params)
    requires i.cmds == [] && w.fsm.state == UNDO_JACK_START && i.jackTrip
    ensures Tick(w, i, p).fsm.state == UNDO_JACK_START
  {
    ExternalsKeep(w.fsm, i.before);
    ExternalsKeep(Moved(w.fsm, i, p), i.mid);
  }

  /** Without commands the device comes to rest in IDLE if and only if it is
      not stuck. */
  lemma ReachesIdleIff(w: World, t: Trace, p: Params)
    requires Uncommanded(w, t)
    ensures (exists n: nat :: At(w, t, p, n).fsm.state == IDLE) <==> !Stuck(w, t, p)
  {
    if Stuck(w, t, p) {
      forall n: nat
        ensures At(w, t, p, n).fsm.state != IDLE
      {
        if WaitsForCommand(w.fsm.state) && w.fsm.state != IDLE {
          assert At(w, t, p, 0) == w;
          Waits(w, t, p, 0, n);
        } else {
          var h: nat :| HangsAt(w, t, p, h);
          if n <= h {
            if At(w, t, p, n).fsm.state == IDLE {
              Waits(w, t, p, n, h);
            }
          } else {
            HangingStays(w, t, p, h, n);
          }
        }
      }
    } else {
      assert At(w, t, p, 0) == w;
      var clear := Clears(w, t, p, 0);
      var k := ComesToIdle(w, t, p, 0, clear);
    }
  }
}
