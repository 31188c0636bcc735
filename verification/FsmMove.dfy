// A move as a whole: what each relay is on for, the order of the states and
// what each of them lasts and ends on, and what a fault, a stop and an undo
// make of it.

module FsmMove {
  import opened Interlock
  import opened FsmModel
  import opened FsmSafety
  import opened FsmTermination
  import opened FsmDistance

  // ---- What the relays are on for ---------------------------------------------------------

  /** The interlock lets a bridge have d now: it has it already, or has been off
      for longer than the hold. */
  predicate Free(b: Bridge, d: Dir, now: int, hold: nat) {
    b.last == d || (b.last == Off && now > b.offUs + hold)
  }

  predicate LiveJog(m: Fsm, cmd: Override) {
    m.state == IDLE && m.overrideTime > m.now && m.overrideCmd == cmd
  }

  predicate AtCap(m: Fsm, p: Params) { m.jackPosUs as real >= JackCap(p) }

  predicate WantsUp(m: Fsm, i: Input, p: Params) {
    || m.state in {JACK_UP_START, JACK_UP, CALIBRATE_JACK_MOVE}
    || (!i.jackTrip && (LiveJog(m, OvJackUpForce) || (LiveJog(m, OvJackUp) && !AtCap(m, p))))
  }

  predicate WantsDown(m: Fsm, i: Input) {
    || m.state in {MOVE_JACK_RETRACT, JACK_DOWN}
    || (!i.jackTrip && (LiveJog(m, OvJackDownForce) || (LiveJog(m, OvJackDown) && !i.home)))
  }

  predicate WantsForward(m: Fsm, i: Input) {
    m.state in {DRIVE, CALIBRATE_DRIVE_MOVE} || (!i.driveTrip && LiveJog(m, OvDriveFwd))
  }

  predicate WantsBack(m: Fsm, i: Input) { !i.driveTrip && LiveJog(m, OvDriveRev) }

  predicate WantsFluffer(m: Fsm, i: Input) {
    || WantsForward(m, i)
    || m.state in {DRIVE_FLUFF_START, DRIVE_END_DELAY, UNDO_JACK_START}
    || (!i.auxTrip && LiveJog(m, OvAux))
  }

  /** At the end of a tick each relay is on, and which way, if and only if the
      state or a live jog wants it, the interlock lets it and, for DRIVE, the
      device is safe. */
  lemma RelaysMean(w: World, i: Input, p: Params)
    requires w.fsm.enabled && Shutdown !in i.cmds
    ensures var m, r, hold := Moved(w.fsm, i, p), Tick(w, i, p).wire, 2 * p.inrushUs;
            && (r.jack == Fwd <==> WantsUp(m, i, p) && Free(w.bank.jack, Fwd, i.now, hold))
            && (r.jack == Rev <==> WantsDown(m, i) && Free(w.bank.jack, Rev, i.now, hold))
            && (r.drive == Fwd <==> i.safe && WantsForward(m, i) && Free(w.bank.drive, Fwd, i.now, hold))
            && (r.drive == Rev <==> i.safe && WantsBack(m, i) && Free(w.bank.drive, Rev, i.now, hold))
            && (r.aux == Fwd <==> WantsFluffer(m, i) && Free(w.bank.aux, Fwd, i.now, hold))
            && r.jack != On && r.drive != On && r.aux != On && r.aux != Rev
  {
    TickKeepsEnabled(w, i, p);
    RequestMeans(Moved(w.fsm, i, p), i, p);
  }

  lemma RequestMeans(m: Fsm, i: Input, p: Params)
    ensures var q := Request(m, i, p);
            && (q.jack == Fwd <==> WantsUp(m, i, p)) && (q.jack == Rev <==> WantsDown(m, i))
            && (q.drive == Fwd <==> WantsForward(m, i)) && (q.drive == Rev <==> WantsBack(m, i))
            && (q.aux == Fwd <==> WantsFluffer(m, i))
            && q.jack != On && q.drive != On && q.aux != On && q.aux != Rev
  {
  }

  /** In every run: outside IDLE the drive goes forward only, and only in DRIVE
      and its calibration; backward it goes only in IDLE; and in DRIVE and in
      JACK_DOWN the motors are on as soon as the interlock lets them. */
  lemma RelaysOfRun(w: World, ins: seq<Input>, p: Params)
    requires w.fsm.enabled && NoShutdown(ins) && ins != []
    ensures var u, i, v := WorldAfter(w, ins[..|ins| - 1], p), ins[|ins| - 1], WorldAfter(w, ins, p);
            && (v.fsm.state != IDLE && v.wire.drive != Off ==>
                  v.wire.drive == Fwd && v.fsm.state in {DRIVE, CALIBRATE_DRIVE_MOVE})
            && (v.wire.drive == Rev ==> v.fsm.state == IDLE && LiveJog(Moved(u.fsm, i, p), OvDriveRev))
            && (v.fsm.state == DRIVE && i.safe ==>
                  && (Free(u.bank.drive, Fwd, i.now, 2 * p.inrushUs) ==> v.wire.drive == Fwd)
                  && (Free(u.bank.aux, Fwd, i.now, 2 * p.inrushUs) ==> v.wire.aux == Fwd))
            && (v.fsm.state == JACK_DOWN && Free(u.bank.jack, Rev, i.now, 2 * p.inrushUs) ==> v.wire.jack == Rev)
  {
    var last := |ins| - 1;
    var u := WorldAfter(w, ins[..last], p);
    StaysEnabled(w, ins[..last], p);
    RelaysMean(u, ins[last], p);
    EndsInMoved(u, ins[last], p);
  }

  lemma EndsInMoved(w: World, i: Input, p: Params)
    requires w.fsm.enabled && Shutdown !in i.cmds
    ensures Tick(w, i, p).fsm.state == Moved(w.fsm, i, p).state
  {
    TickKeepsEnabled(w, i, p);
    ExternalsKeep(Moved(w.fsm, i, p), i.mid);
  }

  /** The position goes up and down with what the tick wants of the jack, by a
      tick, never below 0, and is 0 at home. */
  lemma PositionFollows(w: World, i: Input, p: Params)
    requires w.fsm.enabled && Shutdown !in i.cmds && i.mid == []
    ensures var m, pos := Moved(w.fsm, i, p), Tick(w, i, p).fsm.jackPosUs;
            pos == if i.home then 0
                   else if WantsUp(m, i, p) then m.jackPosUs + 20_000
                   else if WantsDown(m, i) then (if m.jackPosUs < 20_000 then 0 else m.jackPosUs - 20_000)
                   else m.jackPosUs
  {
    TickKeepsEnabled(w, i, p);
    if !i.home {
      TrackedMeans(Moved(w.fsm, i, p), i, p);
    }
  }

  lemma TrackedMeans(m: Fsm, i: Input, p: Params)
    requires !i.home
    ensures TrackedDir(m, i, p) == Fwd <==> WantsUp(m, i, p)
    ensures TrackedDir(m, i, p) == Rev <==> WantsDown(m, i)
  {
  }

  // ---- The order of a move ---------------------------------------------------------------

  /** The states of a move, in order. */
  const MOVE: seq<State> := [
    MOVE_START_DELAY, MOVE_JACK_RETRACT, MOVE_JACK_SETTLE, JACK_UP_START, JACK_UP, DRIVE_START_DELAY,
    DRIVE_FLUFF_START, DRIVE, DRIVE_END_DELAY, JACK_DOWN]

  predicate Moving(s: State) { s in MOVE }

  /** Where a state is in the order; IDLE comes behind them all. */
  function Stage(s: State): nat {
    match s
    case MOVE_START_DELAY => 0
    case MOVE_JACK_RETRACT => 1
    case MOVE_JACK_SETTLE => 2
    case JACK_UP_START => 3
    case JACK_UP => 4
    case DRIVE_START_DELAY => 5
    case DRIVE_FLUFF_START => 6
    case DRIVE => 7
    case DRIVE_END_DELAY => 8
    case JACK_DOWN => 9
    case _ => 10
  }

  /** Nothing is wrong that would end a move early. */
  predicate Sound(i: Input) { i.safe && !i.driveTrip && !i.auxTrip }

  /** What a state of a move ends on: its timer, or the event it waits for. */
  predicate Over(m: Fsm, i: Input, p: Params) {
    || m.now >= m.timerEnd
    || (m.state in {MOVE_JACK_RETRACT, JACK_DOWN} && (i.home || i.jackTrip))
    || (m.state in {JACK_UP_START, JACK_UP} && (i.jackTrip || AtCap(m, p)))
    || (m.state == JACK_UP_START && i.jackOver)
    || (m.state == DRIVE && m.encoder > 0)
  }

  /** The stage after it: the next one, except that the retract is left out for
      a jack at home, and the second lift for one at its height cap. */
  function NextStage(m: Fsm, i: Input, p: Params): nat {
    if m.state == MOVE_START_DELAY && i.home then 3
    else if m.state == JACK_UP_START && AtCap(m, p) then 5
    else Stage(m.state) + 1
  }

  /** What a state of a move may last, from the parameters. */
  function Lasts(s: State, m: Fsm, p: Params): int {
    match s
    case MOVE_JACK_RETRACT => Trunc(Trunc(p.jackKt) as real * p.jackMax)
    case JACK_UP_START => Trunc(Trunc(p.jackKt) as real * p.jackPreDist)
    case JACK_UP => Trunc(p.jackKt * p.jackDist)
    case DRIVE_FLUFF_START => p.fluffPredriveMs * 1000
    case DRIVE => Trunc(p.driveKt * m.moveDist)
    case JACK_DOWN =>
      var lift := m.jackFinishUs - m.jackStartUs;
      var least := Trunc(Trunc(p.jackKt) as real * p.jackDist);
      (if lift > least then lift else least) * 105 / 100
    case _ => 1_000_000
  }

  /** The move goes from m to r: on to the next stage exactly when its state is
      over, with a timer that runs for what the new stage may last. */
  predicate Steps(m: Fsm, r: Fsm, i: Input, p: Params) {
    if Over(m, i, p) then
      && (Moving(r.state) || r.state == IDLE) && Stage(r.state) == NextStage(m, i, p)
      && (r.state != IDLE ==> r.timerStart == m.now && r.timerEnd == m.now + Lasts(r.state, m, p))
    else r == m
  }

  /** Every transition of a sound move is such a step. */
  lemma MoveStep(m: Fsm, i: Input, p: Params)
    requires Sound(i) && Moving(m.state)
    ensures Steps(m, Transition(m, i, p), i, p)
  {
    if Stage(m.state) < 3 {
      LaunchStep(m, i, p);
    } else if Stage(m.state) < 6 {
      LiftStep(m, i, p);
    } else {
      DriveStep(m, i, p);
    }
  }

  lemma LaunchStep(m: Fsm, i: Input, p: Params)
    requires Sound(i) && m.state in {MOVE_START_DELAY, MOVE_JACK_RETRACT, MOVE_JACK_SETTLE}
    ensures Steps(m, Transition(m, i, p), i, p)
  {
  }

  lemma LiftStep(m: Fsm, i: Input, p: Params)
    requires Sound(i) && m.state in {JACK_UP_START, JACK_UP, DRIVE_START_DELAY}
    ensures Steps(m, Transition(m, i, p), i, p)
  {
  }

  lemma DriveStep(m: Fsm, i: Input, p: Params)
    requires Sound(i) && m.state in {DRIVE_FLUFF_START, DRIVE, DRIVE_END_DELAY, JACK_DOWN}
    ensures Steps(m, Transition(m, i, p), i, p)
  {
  }

  /** The drive is measured out in encoder counts: it begins at minus the planned
      distance. */
  lemma DriveIsMeasured(m: Fsm, i: Input, p: Params)
    requires m.state != DRIVE && Transition(m, i, p).state == DRIVE
    requires 0.0 <= Counts(m.moveDist, p) < 32768.0
    ensures var r := Transition(m, i, p);
            && r.moveStartEncoder == r.encoder && Counts(r.moveDist, p) == p.driveKe * r.moveDist
            && (-r.encoder) as real <= Counts(r.moveDist, p) < (-r.encoder) as real + 1.0
  {
    var counts := StartsBelow(Counts(m.moveDist, p));
  }

  lemma StartsBelow(x: real) returns (n: int)
    requires 0.0 <= x < 32768.0
    ensures Wrap16(Trunc(-x)) == -n && n as real <= x < n as real + 1.0
  {
    n := x.Floor;
    assert Trunc(-x) == -n;
  }

  /** What a fault makes of a move: before the lift it just stops, afterwards it
      goes to UNDO, with the fault's own error; UNDO waits for the jack's fuse
      and then lowers; lowering goes on. */
  lemma FaultStep(m: Fsm, i: Input, p: Params)
    ensures var r := Transition(m, i, p);
            && (!i.safe && Moving(m.state) && Stage(m.state) < 3 ==> r.state == IDLE && r.error == SafetyTrip)
            && (!i.safe && Moving(m.state) && 3 <= Stage(m.state) < 9 ==>
                  r.state == UNDO_JACK_START && r.error == SafetyTrip)
            && (i.safe && m.state == DRIVE_FLUFF_START && i.auxTrip ==> r.state == UNDO_JACK_START && r.error == EfuseTrip3)
            && (i.safe && m.state == DRIVE && i.driveTrip ==> r.state == UNDO_JACK_START && r.error == EfuseTrip1)
            && (m.state == UNDO_JACK_START ==> r.state == if i.jackTrip then UNDO_JACK_START else JACK_DOWN)
            && (m.state == JACK_DOWN ==> r.state == if Over(m, i, p) then IDLE else JACK_DOWN)
  {
  }

  /** Faults that do not concern a state leave it as it would be without them. */
  lemma OtherFuses(m: Fsm, i: Input, p: Params)
    requires i.safe && Moving(m.state) && (m.state != DRIVE || !i.driveTrip) && (m.state != DRIVE_FLUFF_START || !i.auxTrip)
    ensures Transition(m, i, p) == Transition(m, i.(driveTrip := false, auxTrip := false), p)
  {
  }

  /** A calibration ends on its timer, the drive's also when safety breaks; the
      delay before it ends on a command only. */
  lemma CalibrationStep(m: Fsm, i: Input, p: Params)
    ensures m.state == CALIBRATE_JACK_MOVE ==>
              Transition(m, i, p).state == if m.now >= m.timerEnd then IDLE else CALIBRATE_JACK_MOVE
    ensures m.state == CALIBRATE_DRIVE_MOVE ==>
              Transition(m, i, p).state == if m.now >= m.timerEnd || !i.safe then IDLE else CALIBRATE_DRIVE_MOVE
    ensures m.state in {IDLE, CALIBRATE_JACK_DELAY, CALIBRATE_DRIVE_DELAY} ==> Transition(m, i, p) == m
  {
  }

  // ---- A whole move, from any of its states to rest -----------------------------------------

  /** A run in which nothing goes wrong and no client sets the distance. */
  ghost predicate SoundRun(t: Trace) {
    forall n: nat :: Sound(t(n)) && NoSetRemaining(t(n).before) && NoSetRemaining(t(n).mid)
  }

  /** One tick of such a run. */
  lemma MoveTick(w: World, i: Input, p: Params)
    requires w.fsm.enabled && i.cmds == [] && Sound(i) && Moving(w.fsm.state)
    requires NoSetRemaining(i.before) && NoSetRemaining(i.mid)
    ensures var d, v := Drained(w.fsm, i, p), Tick(w, i, p).fsm;
            && d.state == w.fsm.state && d.now == i.now && d.timerEnd == w.fsm.timerEnd
            && d.remaining == w.fsm.remaining && d.moveDist == w.fsm.moveDist
            && v.state == Moved(w.fsm, i, p).state && v.timerEnd == Moved(w.fsm, i, p).timerEnd
            && Steps(d, Moved(w.fsm, i, p), i, p)
            && v.moveDist == w.fsm.moveDist
            && v.remaining == w.fsm.remaining - if w.fsm.state == DRIVE && v.state != DRIVE then w.fsm.moveDist else 0.0
  {
    var d := Drained(w.fsm, i, p);
    ExternalsKeep(w.fsm, i.before);
    ExternalsKeepDistance(w.fsm, i.before);
    TickKeepsEnabled(w, i, p);
    MoveStep(d, i, p);
    StepDeducts(d, i, p);
    ExternalsKeep(Moved(w.fsm, i, p), i.mid);
    ExternalsKeepDistance(Moved(w.fsm, i, p), i.mid);
  }

  lemma StepDeducts(m: Fsm, i: Input, p: Params)
    requires Sound(i) && Moving(m.state)
    ensures var r := Transition(m, i, p);
            && r.moveDist == m.moveDist
            && r.remaining == m.remaining - if m.state == DRIVE && r.state != DRIVE then m.moveDist else 0.0
  {
  }

  /** On the way, or through: the plan stands until DRIVE ends and is taken off
      once then. */
  ghost predicate OnTheWay(m: Fsm, v: Fsm) {
    && (Moving(v.state) || v.state == IDLE)
    && Stage(m.state) <= Stage(v.state)
    && if Stage(v.state) <= 7 then v.moveDist == m.moveDist && v.remaining == m.remaining
       else v.remaining == m.remaining - m.moveDist
  }

  lemma {:induction false} StaysOnTheWay(w: World, t: Trace, p: Params, n: nat)
    requires Uncommanded(w, t) && SoundRun(t) && Committed(w.fsm.state)
    ensures OnTheWay(w.fsm, At(w, t, p, n).fsm)
  {
    if n > 0 {
      StaysOnTheWay(w, t, p, n - 1);
      Running(w, t, p, n - 1);
      Onward(w.fsm, At(w, t, p, n - 1), t(n - 1), p);
    }
  }

  lemma Onward(m: Fsm, u: World, i: Input, p: Params)
    requires OnTheWay(m, u.fsm) && u.fsm.enabled && i.cmds == [] && Sound(i)
    requires NoSetRemaining(i.before) && NoSetRemaining(i.mid)
    ensures OnTheWay(m, Tick(u, i, p).fsm)
  {
    if u.fsm.state == IDLE {
      RestTick(u, i, p);
    } else {
      MoveTick(u, i, p);
    }
  }

  lemma RestTick(w: World, i: Input, p: Params)
    requires w.fsm.enabled && i.cmds == [] && w.fsm.state == IDLE
    requires NoSetRemaining(i.before) && NoSetRemaining(i.mid)
    ensures Tick(w, i, p).fsm.state == IDLE && Tick(w, i, p).fsm.remaining == w.fsm.remaining
  {
    ExternalsKeep(w.fsm, i.before);
    ExternalsKeepDistance(w.fsm, i.before);
    TickKeepsEnabled(w, i, p);
    ExternalsKeep(Moved(w.fsm, i, p), i.mid);
    ExternalsKeepDistance(Moved(w.fsm, i, p), i.mid);
  }

  /** The stages no move leaves out. */
  predicate Mandatory(s: State) { Moving(s) && Stage(s) >= 5 }

  /** A move that has got to a later stage has come through each mandatory one:
      tick e is the first in it, and set its timer. */
  lemma {:induction false} PassesThrough(w: World, t: Trace, p: Params, k: nat, s: State) returns (e: nat)
    requires Uncommanded(w, t) && SoundRun(t) && Committed(w.fsm.state)
    requires Mandatory(s) && Stage(w.fsm.state) < Stage(s) <= Stage(At(w, t, p, k).fsm.state)
    ensures 0 < e <= k && At(w, t, p, e).fsm.state == s && Stage(At(w, t, p, e - 1).fsm.state) < Stage(s)
    ensures Steps(Drained(At(w, t, p, e - 1).fsm, t(e - 1), p), Moved(At(w, t, p, e - 1).fsm, t(e - 1), p), t(e - 1), p)
    decreases k
  {
    var u := At(w, t, p, k - 1);
    StaysOnTheWay(w, t, p, k - 1);
    Running(w, t, p, k - 1);
    if Stage(u.fsm.state) >= Stage(s) {
      e := PassesThrough(w, t, p, k - 1, s);
    } else {
      e := k;
      Arrives(u, t(k - 1), p, s);
    }
  }

  lemma Arrives(u: World, i: Input, p: Params, s: State)
    requires u.fsm.enabled && i.cmds == [] && Sound(i) && Moving(u.fsm.state) && Mandatory(s)
    requires NoSetRemaining(i.before) && NoSetRemaining(i.mid)
    requires Stage(u.fsm.state) < Stage(s) <= Stage(Tick(u, i, p).fsm.state)
    ensures Tick(u, i, p).fsm.state == s && Steps(Drained(u.fsm, i, p), Moved(u.fsm, i, p), i, p)
  {
    MoveTick(u, i, p);
    SameStage(Tick(u, i, p).fsm.state, s);
  }

  lemma SameStage(a: State, b: State)
    requires (Moving(a) || a == IDLE) && Moving(b) && Stage(a) == Stage(b)
    ensures a == b
  {
  }

  /** The run is in state s somewhere before tick end. */
  ghost predicate Visits(w: World, t: Trace, p: Params, end: nat, s: State) {
    exists e :: 0 < e < end && At(w, t, p, e).fsm.state == s
  }

  lemma VisitsMandatory(w: World, t: Trace, p: Params, end: nat, s: State)
    requires Uncommanded(w, t) && SoundRun(t) && Committed(w.fsm.state)
    requires At(w, t, p, end).fsm.state == IDLE && Mandatory(s) && Stage(w.fsm.state) < Stage(s)
    ensures Visits(w, t, p, end, s)
  {
    var e := PassesThrough(w, t, p, end, s);
  }

  lemma NeverHangsOnTheWay(w: World, t: Trace, p: Params)
    requires Uncommanded(w, t) && SoundRun(t) && Committed(w.fsm.state)
    ensures forall j: nat :: !HangsAt(w, t, p, j)
  {
    forall j: nat
      ensures !HangsAt(w, t, p, j)
    {
      StaysOnTheWay(w, t, p, j);
    }
  }

  /** Every move that nothing interferes with ends at rest, having driven and
      then lowered the jack, and has taken exactly its planned distance off. */
  lemma {:induction false} WholeMove(w: World, t: Trace, p: Params) returns (end: nat)
    requires Uncommanded(w, t) && SoundRun(t) && Committed(w.fsm.state)
    ensures At(w, t, p, end).fsm.state == IDLE
    ensures At(w, t, p, end).fsm.remaining == w.fsm.remaining - w.fsm.moveDist
    ensures forall s :: Mandatory(s) && Stage(w.fsm.state) < Stage(s) ==> Visits(w, t, p, end, s)
  {
    NeverHangsOnTheWay(w, t, p);
    var clear := Clears(w, t, p, 0);
    end := ComesToIdle(w, t, p, 0, clear);
    StaysOnTheWay(w, t, p, end);
    forall s | Mandatory(s) && Stage(w.fsm.state) < Stage(s)
      ensures Visits(w, t, p, end, s)
    {
      VisitsMandatory(w, t, p, end, s);
    }
  }

  // ---- The drive is measured ----------------------------------------------------------------

  /** The encoder edges of ticks a to b. */
  function Edges(t: Trace, a: nat, b: nat): nat
    requires a <= b
    decreases b
  {
    if a == b then 0 else Edges(t, a, b - 1) + t(b - 1).edges
  }

  /** Driving since tick e, as it was entered then: the count stood at its start,
      and has room up to tick n. */
  ghost predicate DrivenSince(w: World, t: Trace, p: Params, e: nat, n: nat) {
    && Uncommanded(w, t) && e <= n
    && (forall k: nat :: e <= k <= n ==> At(w, t, p, k).fsm.state == DRIVE)
    && At(w, t, p, e).fsm.moveStartEncoder == At(w, t, p, e).fsm.encoder
    && -0x8000 <= At(w, t, p, e).fsm.encoder
    && At(w, t, p, e).fsm.encoder + Edges(t, e, n + 1) < 0x8000
  }

  lemma DriveTick(w: World, i: Input, p: Params)
    requires w.fsm.enabled && i.cmds == [] && w.fsm.state == DRIVE
    requires -0x8000 <= w.fsm.encoder + i.edges < 0x8000
    ensures var d, v := Drained(w.fsm, i, p), Tick(w, i, p).fsm;
            && d.state == DRIVE && d.encoder == w.fsm.encoder + i.edges && d.now == i.now && d.timerEnd == w.fsm.timerEnd
            && d.moveStartEncoder == w.fsm.moveStartEncoder
            && v.state == Transition(d, i, p).state && v.enabled
            && (v.state == DRIVE ==> v.encoder == d.encoder && v.timerEnd == d.timerEnd
                                     && v.moveStartEncoder == d.moveStartEncoder)
  {
    ExternalsKeep(w.fsm, i.before);
    TickKeepsEnabled(w, i, p);
    StaysInDrive(Drained(w.fsm, i, p), i, p);
    ExternalsKeep(Moved(w.fsm, i, p), i.mid);
  }

  lemma StaysInDrive(m: Fsm, i: Input, p: Params)
    requires m.state == DRIVE
    ensures Transition(m, i, p).state == DRIVE ==> Transition(m, i, p) == m
  {
  }

  lemma DriveEndTick(w: World, i: Input, p: Params)
    requires w.fsm.enabled && i.cmds == [] && w.fsm.state == DRIVE && Sound(i)
    requires -0x8000 <= w.fsm.encoder + i.edges < 0x8000
    ensures Tick(w, i, p).fsm.state ==
            if w.fsm.encoder + i.edges > 0 || i.now >= w.fsm.timerEnd then DRIVE_END_DELAY else DRIVE
  {
    DriveTick(w, i, p);
    DriveEnds(Drained(w.fsm, i, p), i, p);
  }

  lemma DriveEnds(m: Fsm, i: Input, p: Params)
    requires m.state == DRIVE && Sound(i)
    ensures Transition(m, i, p).state == if m.encoder > 0 || m.now >= m.timerEnd then DRIVE_END_DELAY else DRIVE
  {
  }

  lemma DriveTripTick(w: World, i: Input, p: Params, driven: int)
    requires w.fsm.enabled && i.cmds == [] && w.fsm.state == DRIVE && i.safe && i.driveTrip
    requires -0x8000 <= w.fsm.encoder + i.edges < 0x8000 && NoSetRemaining(i.before) && NoSetRemaining(i.mid)
    requires driven == w.fsm.encoder + i.edges - w.fsm.moveStartEncoder
    ensures var v := Tick(w, i, p).fsm;
            var left := w.fsm.remaining - driven as real / p.driveKe;
            v.state == UNDO_JACK_START && v.remaining == if left < 0.0 then 0.0 else left
  {
    DriveTick(w, i, p);
    ExternalsKeepDistance(w.fsm, i.before);
    AccountedDrain(w.fsm, i, p);
    DriveTrips(Drained(w.fsm, i, p), i, p, driven);
    TickKeepsEnabled(w, i, p);
    ExternalsKeepDistance(Moved(w.fsm, i, p), i.mid);
  }

  lemma AccountedDrain(m: Fsm, i: Input, p: Params)
    requires i.cmds == [] && NoSetRemaining(i.before)
    ensures Drained(m, i, p).remaining == m.remaining
  {
    ExternalsKeepDistance(m, i.before);
  }

  lemma DriveTrips(m: Fsm, i: Input, p: Params, driven: int)
    requires m.state == DRIVE && i.safe && i.driveTrip && driven == m.encoder - m.moveStartEncoder
    ensures var r := Transition(m, i, p);
            var left := m.remaining - driven as real / p.driveKe;
            r.state == UNDO_JACK_START && r.remaining == if left < 0.0 then 0.0 else left
  {
  }

  /** While the device drives, the count is its start plus every edge since. */
  lemma {:induction false} EdgesCounted(w: World, t: Trace, p: Params, e: nat, n: nat)
    requires DrivenSince(w, t, p, e, n)
    ensures var m, v := At(w, t, p, e).fsm, At(w, t, p, n).fsm;
            && v.encoder == m.encoder + Edges(t, e, n) && v.encoder + t(n).edges < 0x8000
            && v.moveStartEncoder == m.encoder && v.timerEnd == m.timerEnd
    decreases n
  {
    if e < n {
      EdgesCounted(w, t, p, e, n - 1);
      Running(w, t, p, n - 1);
      DriveTick(At(w, t, p, n - 1), t(n - 1), p);
      assert At(w, t, p, n).fsm.state == DRIVE;
    }
  }

  /** The world in which tick n finds the drive. */
  lemma DrivingAt(w: World, t: Trace, p: Params, e: nat, n: nat) returns (u: World)
    requires DrivenSince(w, t, p, e, n)
    ensures u == At(w, t, p, n) && At(w, t, p, n + 1) == Tick(u, t(n), p)
    ensures u.fsm.enabled && u.fsm.state == DRIVE && t(n).cmds == []
    ensures u.fsm.encoder + t(n).edges == At(w, t, p, e).fsm.encoder + Edges(t, e, n + 1)
    ensures -0x8000 <= u.fsm.encoder + t(n).edges < 0x8000
    ensures u.fsm.moveStartEncoder == At(w, t, p, e).fsm.encoder && u.fsm.timerEnd == At(w, t, p, e).fsm.timerEnd
  {
    u := At(w, t, p, n);
    EdgesCounted(w, t, p, e, n);
    Running(w, t, p, n);
  }

  /** The drive ends, as far as nothing goes wrong, at the first tick by which
      more edges were counted than it began below zero, or at its timer. */
  lemma DriveEndsIff(w: World, t: Trace, p: Params, e: nat, n: nat)
    requires DrivenSince(w, t, p, e, n) && Sound(t(n))
    ensures At(w, t, p, n + 1).fsm.state ==
            if Edges(t, e, n + 1) > -At(w, t, p, e).fsm.encoder || t(n).now >= At(w, t, p, e).fsm.timerEnd
            then DRIVE_END_DELAY else DRIVE
  {
    var u := DrivingAt(w, t, p, e, n);
    DriveEndTick(u, t(n), p);
  }

  /** When the drive's fuse trips, what was driven by the edges counted comes
      off the remaining distance, but no more than is left. */
  lemma DriveTripDeducts(w: World, t: Trace, p: Params, e: nat, n: nat)
    requires DrivenSince(w, t, p, e, n) && t(n).safe && t(n).driveTrip
    requires NoSetRemaining(t(n).before) && NoSetRemaining(t(n).mid)
    ensures var left := At(w, t, p, n).fsm.remaining - Edges(t, e, n + 1) as real / p.driveKe;
            && At(w, t, p, n + 1).fsm.state == UNDO_JACK_START
            && At(w, t, p, n + 1).fsm.remaining == if left < 0.0 then 0.0 else left
  {
    var u := DrivingAt(w, t, p, e, n);
    DriveTripTick(u, t(n), p, Edges(t, e, n + 1));
  }

  // ---- A raised jack is lowered --------------------------------------------------------------

  /** The jack has been raised, or may have been, and not lowered yet. */
  predicate Raised(s: State) {
    s in {JACK_UP_START, JACK_UP, DRIVE_START_DELAY, DRIVE_FLUFF_START, DRIVE, DRIVE_END_DELAY, UNDO_JACK_START}
  }

  lemma {:induction false} DrainKeepsRaised(m: Fsm, cmds: seq<Cmd>, i: Input, p: Params)
    requires Raised(m.state) && Stop !in cmds
    ensures Raised(Drain(m, cmds, i, p).state)
    decreases cmds
  {
    if cmds != [] {
      DrainKeepsRaised(Command(m, cmds[0], i, p), cmds[1..], i, p);
    }
  }

  lemma RaisedTick(w: World, i: Input, p: Params)
    requires w.fsm.enabled && Raised(w.fsm.state) && Stop !in i.cmds && Shutdown !in i.cmds
    ensures Raised(Tick(w, i, p).fsm.state) || Tick(w, i, p).fsm.state == JACK_DOWN
  {
    var b := ApplyExternals(w.fsm, i.before);
    ExternalsKeep(w.fsm, i.before);
    DrainKeepsRaised(b.(now := i.now, encoder := Wrap16(b.encoder + i.edges)), i.cmds, i, p);
    EndsInMoved(w, i, p);
    RaisedStep(Drained(w.fsm, i, p), i, p);
  }

  lemma RaisedStep(m: Fsm, i: Input, p: Params)
    requires Raised(m.state)
    ensures Raised(Transition(m, i, p).state) || Transition(m, i, p).state == JACK_DOWN
  {
  }

  ghost predicate NoStop(ins: seq<Input>) {
    forall j :: 0 <= j < |ins| ==> Stop !in ins[j].cmds
  }

  /** Over every run without STOP, whatever breaks, trips or is asked for: a
      device with its jack raised comes to rest only by way of JACK_DOWN. */
  lemma {:induction false} RestsOnlyLowered(w: World, ins: seq<Input>, p: Params) returns (e: nat)
    requires w.fsm.enabled && Raised(w.fsm.state) && NoShutdown(ins) && NoStop(ins)
    requires ins != [] && !Raised(WorldAfter(w, ins, p).fsm.state)
    ensures 0 < e <= |ins| && WorldAfter(w, ins[..e], p).fsm.state == JACK_DOWN
    ensures forall j :: 0 <= j < e ==> Raised(WorldAfter(w, ins[..j], p).fsm.state)
    decreases |ins|
  {
    if j :| 0 <= j < |ins| && !Raised(WorldAfter(w, ins[..j], p).fsm.state) {
      assert ins[..0] == [];
      e := RestsOnlyLowered(w, ins[..j], p);
      assert forall k :: 0 <= k <= j ==> ins[..j][..k] == ins[..k];
    } else {
      e := |ins|;
      assert ins[..e] == ins;
      assert Raised(WorldAfter(w, ins[..e - 1], p).fsm.state);
      LeavesByLowering(w, ins, p);
    }
  }

  lemma LeavesByLowering(w: World, ins: seq<Input>, p: Params)
    requires w.fsm.enabled && NoShutdown(ins) && NoStop(ins) && ins != []
    requires Raised(WorldAfter(w, ins[..|ins| - 1], p).fsm.state) && !Raised(WorldAfter(w, ins, p).fsm.state)
    ensures WorldAfter(w, ins, p).fsm.state == JACK_DOWN
  {
    var last := |ins| - 1;
    StaysEnabled(w, ins[..last], p);
    RaisedTick(WorldAfter(w, ins[..last], p), ins[last], p);
  }

  // ---- Commands ----------------------------------------------------------------------------

  /** The machine when a tick begins to drain its commands. */
  function Listening(m: Fsm, i: Input): Fsm {
    var b := ApplyExternals(m, i.before);
    b.(now := i.now, encoder := Wrap16(b.encoder + i.edges))
  }

  lemma {:induction false} DrainParts(m: Fsm, a: seq<Cmd>, b: seq<Cmd>, i: Input, p: Params)
    ensures Drain(m, a + b, i, p) == Drain(Drain(m, a, i, p), b, i, p)
    decreases a
  {
    if a == [] {
      assert a + b == b;
    } else {
      assert (a + b)[0] == a[0] && (a + b)[1..] == a[1..] + b;
      DrainParts(Command(m, a[0], i, p), a[1..], b, i, p);
    }
  }

  /** Commands that leave an idle device idle. */
  ghost predicate Restful(cmds: seq<Cmd>) {
    forall j :: 0 <= j < |cmds| ==>
      cmds[j] !in {Start, StartIgnoreOvertravel, CalJackPrep, CalDrivePrep, Shutdown}
  }

  lemma {:induction false} DrainRests(m: Fsm, cmds: seq<Cmd>, i: Input, p: Params)
    requires m.state == IDLE && Restful(cmds)
    ensures Drain(m, cmds, i, p).state == IDLE
    decreases cmds
  {
    if cmds != [] {
      DrainRests(Command(m, cmds[0], i, p), cmds[1..], i, p);
    }
  }

  /** STOP, wherever the device is and whatever was queued before it: the tick
      ends in IDLE, and with every relay off but for a live jog's. */
  lemma StopEnds(w: World, i: Input, a: seq<Cmd>, b: seq<Cmd>, p: Params)
    requires w.fsm.enabled && i.cmds == a + [Stop] + b && Shutdown !in a && Restful(b)
    ensures Tick(w, i, p).fsm.state == IDLE
    ensures ApplyExternals(w.fsm, i.before).overrideTime <= i.now ==> Tick(w, i, p).wire == ALL_OFF
  {
    var m := Listening(w.fsm, i);
    DrainParts(m, a + [Stop], b, i, p);
    DrainParts(m, a, [Stop], i, p);
    DrainOne(Drain(m, a, i, p), Stop, i, p);
    DrainRests(Drain(m, a + [Stop], i, p), b, i, p);
    DrainKeepsOverride(m, i.cmds, i, p);
    EndsInMoved(w, i, p);
    if ApplyExternals(w.fsm, i.before).overrideTime <= i.now {
      TickCompletes(w.fsm, i, p);
      RestIsOff(w, i, p);
    }
  }

  lemma RestIsOff(w: World, i: Input, p: Params)
    requires w.fsm.enabled && Shutdown !in i.cmds
    requires Drained(w.fsm, i, p).state == IDLE && Drained(w.fsm, i, p).overrideTime <= i.now
    ensures Tick(w, i, p).wire == ALL_OFF
  {
    TickKeepsEnabled(w, i, p);
    TickCompletes(w.fsm, i, p);
  }

  lemma {:induction false} DrainKeepsUndo(m: Fsm, cmds: seq<Cmd>, i: Input, p: Params)
    requires m.state == UNDO_JACK_START && Stop !in cmds
    ensures Drain(m, cmds, i, p).state == UNDO_JACK_START
    decreases cmds
  {
    if cmds != [] {
      DrainKeepsUndo(Command(m, cmds[0], i, p), cmds[1..], i, p);
    }
  }

  /** UNDO, anywhere but in IDLE: the tick ends lowering the jack, or waiting for
      the jack's fuse if that is tripped. */
  lemma UndoLowers(w: World, i: Input, a: seq<Cmd>, b: seq<Cmd>, p: Params)
    requires w.fsm.enabled && i.cmds == a + [Undo] + b && Shutdown !in i.cmds && Stop !in b
    requires Drain(Listening(w.fsm, i), a, i, p).state != IDLE
    ensures Tick(w, i, p).fsm.state == if i.jackTrip then UNDO_JACK_START else JACK_DOWN
  {
    var m := Listening(w.fsm, i);
    DrainParts(m, a + [Undo], b, i, p);
    DrainParts(m, a, [Undo], i, p);
    DrainOne(Drain(m, a, i, p), Undo, i, p);
    DrainKeepsUndo(Drain(m, a + [Undo], i, p), b, i, p);
    FaultStep(Drained(w.fsm, i, p), i, p);
    EndsInMoved(w, i, p);
  }

  /** START in IDLE: the move begins exactly when there is distance left and the
      gates are open, with the configured distance or what is left of it;
      otherwise the first of the reasons, in this order, is the error. */
  lemma StartIff(w: World, i: Input, p: Params)
    requires w.fsm.enabled && w.fsm.state == IDLE && i.cmds == [Start] && NoSetRemaining(i.before)
    ensures var m := Moved(w.fsm, i, p);
            if w.fsm.remaining > 0.0 && i.battery >= p.lowProtectionV && i.safe
               && !i.driveTrip && !i.jackTrip && !i.auxTrip then
              && m.state == MOVE_START_DELAY && m.error == NoError && m.timerEnd == i.now + 1_000_000
              && m.moveDist == (if p.driveDist < w.fsm.remaining then p.driveDist else w.fsm.remaining)
            else
              && m.state == IDLE
              && m.error == if w.fsm.remaining <= 0.0 then TravelLimit
                            else if i.battery < p.lowProtectionV then LowBattery
                            else if !i.safe then SafetyTrip
                            else if i.driveTrip then EfuseTrip1
                            else if i.jackTrip then EfuseTrip2
                            else EfuseTrip3
  {
    ExternalsKeep(w.fsm, i.before);
    ExternalsKeepDistance(w.fsm, i.before);
    DrainOne(Listening(w.fsm, i), Start, i, p);
  }

  /** START and the calibrations outside their state change neither state nor
      timer; inside it they step on when the battery allows. */
  lemma CalibrationIff(m: Fsm, c: Cmd, i: Input, p: Params)
    ensures var r, charged := Command(m, c, i, p), i.battery > p.lowProtectionV;
            && (c == CalJackPrep && r.state != m.state <==> c == CalJackPrep && m.state == IDLE && charged)
            && (c == CalJackPrep && r.state != m.state ==> r.state == CALIBRATE_JACK_DELAY)
            && (c == CalJackStart && r.state != m.state <==> c == CalJackStart && m.state == CALIBRATE_JACK_DELAY && charged)
            && (c == CalJackStart && r.state != m.state ==> r.state == CALIBRATE_JACK_MOVE && r.timerEnd == m.now + 3_000_000)
            && (c == CalJackEnd && r.state != m.state <==> c == CalJackEnd && m.state == CALIBRATE_JACK_MOVE)
            && (c == CalDrivePrep && r.state != m.state <==> c == CalDrivePrep && m.state == IDLE && charged)
            && (c == CalDrivePrep && r.state != m.state ==> r.state == CALIBRATE_DRIVE_DELAY)
            && (c == CalDriveStart && r.state != m.state <==> c == CalDriveStart && m.state == CALIBRATE_DRIVE_DELAY && charged)
            && (c == CalDriveStart && r.state != m.state ==>
                  r.state == CALIBRATE_DRIVE_MOVE && r.timerEnd == m.now + 6_000_000 && r.encoder == 0)
            && (c == CalDriveEnd && r.state != m.state <==> c == CalDriveEnd && m.state == CALIBRATE_DRIVE_MOVE)
            && (c in {CalJackEnd, CalDriveEnd} && r.state != m.state ==> r.state == IDLE)
            && (c in {Start, StartIgnoreOvertravel} && m.state != IDLE ==> r.state == m.state && r.timerEnd == m.timerEnd)
  {
  }
}
