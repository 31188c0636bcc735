// The jack: its position estimate never exceeds the height cap by more than a
// tick, every tick that drives it up is counted, and it is lowered for long
// enough.

module FsmJack {
  import opened Interlock
  import opened FsmModel
  import opened FsmSafety

  lemma TruncBounds(x: real)
    requires x >= 0.0
    ensures 0 <= Trunc(x) && Trunc(x) as real <= x < Trunc(x) as real + 1.0
  {
  }

  lemma JackCapNonNegative(p: Params)
    requires p.Bounded()
    ensures JackCap(p) >= 0.0
  {
    TruncBounds(p.jackKt);
    ProductNonNegative(Trunc(p.jackKt) as real, p.jackMax);
  }

  lemma ProductNonNegative(a: real, b: real)
    requires a >= 0.0 && b >= 0.0
    ensures a * b >= 0.0
  {
  }

  // ---- The output switch and the tracking switch -------------------------------------

  /** In one state of the machine, the tracking switch says "up" exactly when
      the output switch asks for it; it says "down" when asked for, and
      otherwise only with the jack at home, where the position is reset. */
  lemma SwitchesAgree(m: Fsm, i: Input, p: Params)
    ensures Request(m, i, p).jack == Fwd <==> TrackedDir(m, i, p) == Fwd
    ensures Request(m, i, p).jack == Rev ==> TrackedDir(m, i, p) == Rev
    ensures TrackedDir(m, i, p) == Rev ==> Request(m, i, p).jack == Rev || i.home
  {
  }

  /** Every tick whose relays drive the jack up is counted, provided no other
      task changes the override between the tick's two looks at it. */
  lemma UpIsCounted(w: World, i: Input, p: Params)
    requires w.fsm.enabled && Shutdown !in i.cmds && i.mid == []
    ensures var v := Tick(w, i, p);
            v.wire.jack == Fwd ==>
              v.fsm.jackPosUs == if i.home then 0 else Moved(w.fsm, i, p).jackPosUs + TICK_US
  {
    TickKeepsEnabled(w, i, p);
    SwitchesAgree(Moved(w.fsm, i, p), i, p);
  }

  /** What the tick's second look must find for an idle jog to be counted. */
  predicate StillJogsUp(m: Fsm, mid: seq<External>, p: Params) {
    var r := ApplyExternals(m, mid);
    m.state == IDLE ==>
      && r.overrideTime > m.now
      && (r.overrideCmd == OvJackUpForce || (r.overrideCmd == OvJackUp && m.jackPosUs as real < JackCap(p)))
  }

  /** A tick that drives the jack up is counted if and only if, outside a move,
      the override still is a live upward jog when the tick looks again. */
  lemma UpIsCountedIff(w: World, i: Input, p: Params)
    requires w.fsm.enabled && Shutdown !in i.cmds && !i.home
    requires Tick(w, i, p).wire.jack == Fwd && Moved(w.fsm, i, p).jackPosUs >= 0
    ensures var m := Moved(w.fsm, i, p);
            Tick(w, i, p).fsm.jackPosUs == m.jackPosUs + TICK_US <==> StillJogsUp(m, i.mid, p)
  {
    var m := Moved(w.fsm, i, p);
    TickKeepsEnabled(w, i, p);
    ExternalsKeep(m, i.mid);
  }

  /** With a change in between, a tick that drives the jack up can go uncounted. */
  lemma UpCanGoUncounted(w: World, i: Input, p: Params)
    requires p.Bounded() && w.fsm.enabled && i.cmds == [] && i.before == []
    requires w.fsm.state == IDLE && w.fsm.overrideCmd == OvJackUpForce && 0 <= i.now < w.fsm.overrideTime
    requires !i.jackTrip && !i.home && w.bank.jack.last == Fwd
    requires i.mid == [StopOverride]
    ensures Tick(w, i, p).wire.jack == Fwd && Tick(w, i, p).fsm.jackPosUs == w.fsm.jackPosUs
  {
    TickKeepsEnabled(w, i, p);
    assert ApplyExternals(Moved(w.fsm, i, p), i.mid)
        == ApplyExternals(ApplyExternal(Moved(w.fsm, i, p), StopOverride), i.mid[1..]);
  }

  // ---- The height cap -------------------------------------------------------------------

  /** Below the cap: strictly so wherever the next tick may start lifting. */
  ghost predicate Capped(m: Fsm, p: Params) {
    && 0 <= m.jackPosUs
    && m.jackPosUs as real <= JackCap(p) + TICK_US as real
    && (m.state in {MOVE_JACK_RETRACT, MOVE_JACK_SETTLE} ==> m.jackPosUs as real <= JackCap(p))
    && m.state != CALIBRATE_JACK_MOVE
    && m.overrideCmd != OvJackUpForce
  }

  ghost predicate NoForce(xs: seq<External>) {
    forall j :: 0 <= j < |xs| && xs[j].Arm? ==> xs[j].cmd != OvJackUpForce
  }

  /** No jack calibration and no forced jog. */
  ghost predicate Unforced(i: Input) {
    CalJackStart !in i.cmds && NoForce(i.before) && NoForce(i.mid)
  }

  lemma {:induction false} CappedExternals(m: Fsm, xs: seq<External>, p: Params)
    requires Capped(m, p) && NoForce(xs)
    ensures Capped(ApplyExternals(m, xs), p)
    decreases xs
  {
    if xs != [] {
      CappedExternals(ApplyExternal(m, xs[0]), xs[1..], p);
    }
  }

  lemma {:induction false} CappedDrain(m: Fsm, cmds: seq<Cmd>, i: Input, p: Params)
    requires Capped(m, p) && CalJackStart !in cmds
    ensures Capped(Drain(m, cmds, i, p), p)
    decreases cmds
  {
    if cmds != [] {
      CappedDrain(Command(m, cmds[0], i, p), cmds[1..], i, p);
    }
  }

  /** The bound on the position with which a tick enters its outputs. */
  ghost predicate Launchable(m: Fsm, i: Input, p: Params) {
    && 0 <= m.jackPosUs && m.jackPosUs as real <= JackCap(p) + TICK_US as real
    && m.state != CALIBRATE_JACK_MOVE && m.overrideCmd != OvJackUpForce
    && (m.state in {JACK_UP_START, JACK_UP} ==> i.home || m.jackPosUs as real <= JackCap(p))
    && (m.state == MOVE_JACK_SETTLE ==> m.jackPosUs as real <= JackCap(p))
  }

  lemma TransitionLaunches(m: Fsm, i: Input, p: Params)
    requires Capped(m, p)
    ensures Launchable(Transition(m, i, p), i, p)
  {
  }

  lemma LaunchableExternals(m: Fsm, xs: seq<External>, i: Input, p: Params)
    requires Launchable(m, i, p) && NoForce(xs)
    ensures Launchable(ApplyExternals(m, xs), i, p)
    decreases xs
  {
    if xs != [] {
      LaunchableExternals(ApplyExternal(m, xs[0]), xs[1..], i, p);
    }
  }

  lemma TrackCaps(m: Fsm, i: Input, p: Params)
    requires p.Bounded() && Launchable(m, i, p)
    ensures Capped(Track(m, i, p), p)
  {
    JackCapNonNegative(p);
  }

  lemma {:induction false} CappedTick(w: World, i: Input, p: Params)
    requires p.Bounded() && Capped(w.fsm, p) && Unforced(i)
    ensures Capped(Tick(w, i, p).fsm, p)
  {
    var b := ApplyExternals(w.fsm, i.before);
    CappedExternals(w.fsm, i.before, p);
    CappedDrain(b.(now := i.now, encoder := Wrap16(b.encoder + i.edges)), i.cmds, i, p);
    TransitionLaunches(Drained(w.fsm, i, p), i, p);
    LaunchableExternals(Moved(w.fsm, i, p), i.mid, i, p);
    TrackCaps(ApplyExternals(Moved(w.fsm, i, p), i.mid), i, p);
  }

  /** The height cap over every run without forced jogs and jack calibration. */
  lemma {:induction false} HeightCap(w: World, ins: seq<Input>, p: Params)
    requires p.Bounded() && Capped(w.fsm, p)
    requires forall j :: 0 <= j < |ins| ==> Unforced(ins[j])
    ensures Capped(WorldAfter(w, ins, p).fsm, p)
    decreases |ins|
  {
    if ins != [] {
      HeightCap(w, ins[..|ins| - 1], p);
      CappedTick(WorldAfter(w, ins[..|ins| - 1], p), ins[|ins| - 1], p);
    }
  }

  // ---- Jack-down is long enough ------------------------------------------------------------

  // What became of the latest lift: none since the last START, going on since
  // startUs, measured, or abandoned by the operator after us microseconds.
  datatype Lift = NoLift | Lifting(startUs: int) | Measured(us: int) | Abandoned(us: int)

  predicate IsLifting(s: State) { s == JACK_UP_START || s == JACK_UP }

  /** The lift after one command. */
  function LiftCommand(l: Lift, before: Fsm, after: Fsm): Lift {
    if before.state == IDLE && after.state == MOVE_START_DELAY then NoLift
    else if l.Lifting? && !IsLifting(after.state) then Abandoned(before.now - l.startUs)
    else l
  }

  function LiftDrain(l: Lift, m: Fsm, cmds: seq<Cmd>, i: Input, p: Params): Lift
    decreases cmds
  {
    if cmds == [] then l
    else
      var r := Command(m, cmds[0], i, p);
      LiftDrain(LiftCommand(l, m, r), r, cmds[1..], i, p)
  }

  /** The lift after the transition of a tick. */
  function LiftTransition(l: Lift, before: Fsm, after: Fsm): Lift {
    if !IsLifting(before.state) && IsLifting(after.state) then Lifting(after.now)
    else if l.Lifting? && !IsLifting(after.state) then Measured(after.now - l.startUs)
    else l
  }

  /** The lift after the command drain of a tick. */
  function LiftDrained(l: Lift, m: Fsm, i: Input, p: Params): Lift {
    var b := ApplyExternals(m, i.before);
    LiftDrain(l, b.(now := i.now, encoder := Wrap16(b.encoder + i.edges)), i.cmds, i, p)
  }

  function LiftTick(l: Lift, w: World, i: Input, p: Params): Lift {
    if !w.fsm.enabled then l
    else
      var d := Drained(w.fsm, i, p);
      if d.enabled then LiftTransition(LiftDrained(l, w.fsm, i, p), d, Moved(w.fsm, i, p))
      else LiftDrained(l, w.fsm, i, p)
  }

  /** The timestamps the machine keeps are those of the lift. */
  ghost predicate LiftKnown(m: Fsm, l: Lift) {
    && (IsLifting(m.state) <==> l.Lifting?)
    && (m.state in {MOVE_START_DELAY, MOVE_JACK_RETRACT, MOVE_JACK_SETTLE} ==> l == NoLift && m.jackFinishUs == 0)
    && match l
       case NoLift => m.jackFinishUs - m.jackStartUs == 0
       case Lifting(s) => m.jackStartUs == s && m.jackFinishUs == 0 && 0 <= s <= m.now
       case Measured(us) => m.jackFinishUs - m.jackStartUs == us && us >= 0
       case Abandoned(us) => m.jackFinishUs - m.jackStartUs <= 0 && us >= 0
  }

  lemma {:induction false} LiftKnownDrain(m: Fsm, cmds: seq<Cmd>, i: Input, p: Params, l: Lift)
    requires LiftKnown(m, l)
    ensures LiftKnown(Drain(m, cmds, i, p), LiftDrain(l, m, cmds, i, p))
    decreases cmds
  {
    if cmds != [] {
      var r := Command(m, cmds[0], i, p);
      LiftKnownDrain(r, cmds[1..], i, p, LiftCommand(l, m, r));
    }
  }

  lemma LiftKnownTransition(m: Fsm, i: Input, p: Params, l: Lift)
    requires LiftKnown(m, l) && m.now >= 0
    ensures LiftKnown(Transition(m, i, p), LiftTransition(l, m, Transition(m, i, p)))
  {
    if IsLifting(m.state) {
      LiftKnownLifting(m, i, p, l);
    } else if m.state in {MOVE_START_DELAY, MOVE_JACK_RETRACT, MOVE_JACK_SETTLE} {
      LiftKnownLaunching(m, i, p, l);
    }
  }

  lemma LiftKnownLifting(m: Fsm, i: Input, p: Params, l: Lift)
    requires LiftKnown(m, l) && m.now >= 0 && IsLifting(m.state)
    ensures LiftKnown(Transition(m, i, p), LiftTransition(l, m, Transition(m, i, p)))
  {
  }

  lemma LiftKnownLaunching(m: Fsm, i: Input, p: Params, l: Lift)
    requires LiftKnown(m, l) && m.now >= 0
    requires m.state in {MOVE_START_DELAY, MOVE_JACK_RETRACT, MOVE_JACK_SETTLE}
    ensures LiftKnown(Transition(m, i, p), LiftTransition(l, m, Transition(m, i, p)))
  {
  }

  lemma LiftKnownDrained(m: Fsm, i: Input, p: Params, l: Lift)
    requires LiftKnown(m, l) && m.now <= i.now
    ensures LiftKnown(Drained(m, i, p), LiftDrained(l, m, i, p))
  {
    var b := ApplyExternals(m, i.before);
    ExternalsKeep(m, i.before);
    LiftKnownDrain(b.(now := i.now, encoder := Wrap16(b.encoder + i.edges)), i.cmds, i, p, l);
  }

  lemma LiftKnownSame(m: Fsm, r: Fsm, l: Lift)
    requires LiftKnown(m, l)
    requires r.state == m.state && r.now == m.now && r.jackStartUs == m.jackStartUs && r.jackFinishUs == m.jackFinishUs
    ensures LiftKnown(r, l)
  {
  }

  /** Whatever happens in a tick, the timestamps stay those of the lift. */
  lemma {:induction false} LiftKnownTick(w: World, i: Input, p: Params, l: Lift)
    requires LiftKnown(w.fsm, l) && w.fsm.now <= i.now && 0 <= i.now
    ensures LiftKnown(Tick(w, i, p).fsm, LiftTick(l, w, i, p))
  {
    LiftKnownDrained(w.fsm, i, p, l);
    TickCompletes(w.fsm, i, p);
    if w.fsm.enabled && Shutdown !in i.cmds {
      LiftKnownTransition(Drained(w.fsm, i, p), i, p, LiftDrained(l, w.fsm, i, p));
      TickKeepsEnabled(w, i, p);
      ExternalsKeep(Moved(w.fsm, i, p), i.mid);
      LiftKnownSame(Moved(w.fsm, i, p), Tick(w, i, p).fsm, LiftTick(l, w, i, p));
    }
  }

  /** The lift over a run. */
  function LiftAfter(l: Lift, w: World, ins: seq<Input>, p: Params): Lift
    decreases ins
  {
    if ins == [] then l
    else
      var last := |ins| - 1;
      LiftTick(LiftAfter(l, w, ins[..last], p), WorldAfter(w, ins[..last], p), ins[last], p)
  }

  ghost predicate ClockRuns(now: int, ins: seq<Input>) {
    && 0 <= now
    && (forall j :: 0 <= j < |ins| ==> now <= ins[j].now)
    && (forall j, k :: 0 <= j < k < |ins| ==> ins[j].now <= ins[k].now)
  }

  lemma {:induction false} NowAfter(w: World, ins: seq<Input>, p: Params)
    requires w.fsm.enabled && NoShutdown(ins)
    ensures WorldAfter(w, ins, p).fsm.now == if ins == [] then w.fsm.now else ins[|ins| - 1].now
  {
    if ins != [] {
      var last := |ins| - 1;
      StaysEnabled(w, ins[..last], p);
      TickKeepsEnabled(WorldAfter(w, ins[..last], p), ins[last], p);
    }
  }

  lemma ClockPrefix(now: int, ins: seq<Input>)
    requires ClockRuns(now, ins) && ins != []
    ensures ClockRuns(now, ins[..|ins| - 1])
    ensures 0 <= ins[|ins| - 1].now
    ensures (if |ins| == 1 then now else ins[|ins| - 2].now) <= ins[|ins| - 1].now
  {
  }

  lemma {:induction false} LiftKnownRun(w: World, ins: seq<Input>, p: Params, l: Lift)
    requires LiftKnown(w.fsm, l) && w.fsm.enabled
    requires NoShutdown(ins) && ClockRuns(w.fsm.now, ins)
    ensures LiftKnown(WorldAfter(w, ins, p).fsm, LiftAfter(l, w, ins, p))
    decreases |ins|
  {
    if ins != [] {
      var last := |ins| - 1;
      ClockPrefix(w.fsm.now, ins);
      LiftKnownRun(w, ins[..last], p, l);
      NowAfter(w, ins[..last], p);
      LiftKnownTick(WorldAfter(w, ins[..last], p), ins[last], p, LiftAfter(l, w, ins[..last], p));
    }
  }

  /** The timer of JACK_DOWN, in every run from boot: whenever the last of a
      run's ticks enters JACK_DOWN, its timer is what the lift of that run
      calls for. */
  lemma {:induction false} JackDownOfRun(w: World, ins: seq<Input>, p: Params)
    requires p.Bounded() && LiftKnown(w.fsm, NoLift) && w.fsm.enabled && ins != []
    requires NoShutdown(ins) && ClockRuns(w.fsm.now, ins)
    ensures var v := WorldAfter(w, ins, p).fsm;
            EntersJackDown(WorldAfter(w, ins[..|ins| - 1], p), ins[|ins| - 1], p) ==>
              && v.timerEnd - v.timerStart == DownFor(LiftAfter(NoLift, w, ins, p), p)
              && v.timerEnd - v.timerStart >= JackTimeFloor(p) * 105 / 100
  {
    var last := |ins| - 1;
    ClockPrefix(w.fsm.now, ins);
    LiftKnownRun(w, ins[..last], p, NoLift);
    StaysEnabled(w, ins[..last], p);
    NowAfter(w, ins[..last], p);
    if EntersJackDown(WorldAfter(w, ins[..last], p), ins[last], p) {
      JackDownLength(WorldAfter(w, ins[..last], p), ins[last], p, LiftAfter(NoLift, w, ins[..last], p));
    }
  }

  /** The tick enters JACK_DOWN. */
  predicate EntersJackDown(w: World, i: Input, p: Params) {
    Drained(w.fsm, i, p).state != JACK_DOWN && Moved(w.fsm, i, p).state == JACK_DOWN
  }

  /** How long the jack is driven down, from what became of the lift. */
  function DownFor(l: Lift, p: Params): int {
    if l.Measured? && l.us > JackTimeFloor(p) then l.us * 105 / 100 else JackTimeFloor(p) * 105 / 100
  }

  lemma JackTimeFloorNonNegative(p: Params)
    requires p.Bounded()
    ensures 0 <= JackTimeFloor(p)
  {
    TruncBounds(p.jackKt);
    ProductNonNegative(Trunc(p.jackKt) as real, p.jackDist);
    TruncBounds(Trunc(p.jackKt) as real * p.jackDist);
  }

  lemma {:induction false} DownTimer(m: Fsm, i: Input, p: Params, l: Lift)
    requires p.Bounded() && LiftKnown(m, l)
    requires m.state != JACK_DOWN && Transition(m, i, p).state == JACK_DOWN
    ensures var r := Transition(m, i, p);
            && r.timerStart == m.now && r.timerEnd - m.now == DownFor(l, p)
            && LiftTransition(l, m, r) == l
  {
    JackTimeFloorNonNegative(p);
    assert Transition(m, i, p) == Enter(m, JACK_DOWN, JackDownTime(m, p));
  }

  /** Whenever JACK_DOWN is entered its timer is 105% of the measured lift, and
      never less than 105% of JACK_TIME. */
  lemma {:induction false} JackDownLength(w: World, i: Input, p: Params, l: Lift)
    requires p.Bounded() && LiftKnown(w.fsm, l) && w.fsm.enabled && Shutdown !in i.cmds
    requires w.fsm.now <= i.now && 0 <= i.now && EntersJackDown(w, i, p)
    ensures var v := Tick(w, i, p).fsm;
            && v.timerStart == i.now
            && v.timerEnd - v.timerStart == DownFor(LiftTick(l, w, i, p), p)
            && v.timerEnd - v.timerStart >= JackTimeFloor(p) * 105 / 100
  {
    LiftKnownDrained(w.fsm, i, p, l);
    TickCompletes(w.fsm, i, p);
    DownTimer(Drained(w.fsm, i, p), i, p, LiftDrained(l, w.fsm, i, p));
    TickKeepsEnabled(w, i, p);
    ExternalsKeep(Moved(w.fsm, i, p), i.mid);
  }

  /** How long the latest lift drove the jack up. */
  function RaisedFor(l: Lift): int {
    if l.Measured? || l.Abandoned? then l.us else 0
  }

  lemma DownForCovers(l: Lift, p: Params)
    requires p.Bounded() && !l.Lifting? && RaisedFor(l) >= 0
    ensures DownFor(l, p) >= RaisedFor(l) * 105 / 100 <==> !(l.Abandoned? && l.us > JackTimeFloor(p))
  {
    JackTimeFloorNonNegative(p);
  }

  /** In every run from boot, a jack-down lasts at least 105% of the time the
      jack was driven up if and only if the operator did not abandon the lift
      after more than JACK_TIME. */
  lemma {:induction false} LoweredEnoughIff(w: World, ins: seq<Input>, p: Params)
    requires p.Bounded() && LiftKnown(w.fsm, NoLift) && w.fsm.enabled && ins != []
    requires NoShutdown(ins) && ClockRuns(w.fsm.now, ins)
    ensures var v := WorldAfter(w, ins, p).fsm;
            var l := LiftAfter(NoLift, w, ins, p);
            EntersJackDown(WorldAfter(w, ins[..|ins| - 1], p), ins[|ins| - 1], p) ==>
              (v.timerEnd - v.timerStart >= RaisedFor(l) * 105 / 100 <==>
               !(l.Abandoned? && l.us > JackTimeFloor(p)))
  {
    var last := |ins| - 1;
    var v, l := WorldAfter(w, ins[..last], p), LiftAfter(NoLift, w, ins[..last], p);
    ClockPrefix(w.fsm.now, ins);
    LiftKnownRun(w, ins[..last], p, NoLift);
    StaysEnabled(w, ins[..last], p);
    NowAfter(w, ins[..last], p);
    if EntersJackDown(v, ins[last], p) {
      LoweredEnoughTick(v, ins[last], p, l);
    }
  }

  lemma {:induction false} LoweredEnoughTick(w: World, i: Input, p: Params, l: Lift)
    requires p.Bounded() && LiftKnown(w.fsm, l) && w.fsm.enabled && Shutdown !in i.cmds
    requires w.fsm.now <= i.now && 0 <= i.now && EntersJackDown(w, i, p)
    ensures var v := Tick(w, i, p).fsm;
            var after := LiftTick(l, w, i, p);
            v.timerEnd - v.timerStart >= RaisedFor(after) * 105 / 100 <==>
            !(after.Abandoned? && after.us > JackTimeFloor(p))
  {
    JackDownLength(w, i, p, l);
    LiftKnownTick(w, i, p, l);
    LandsInJackDown(w, i, p);
    DownForCovers(LiftTick(l, w, i, p), p);
  }

  lemma LandsInJackDown(w: World, i: Input, p: Params)
    requires EntersJackDown(w, i, p) && w.fsm.enabled && Shutdown !in i.cmds
    ensures Tick(w, i, p).fsm.state == JACK_DOWN
  {
    TickKeepsEnabled(w, i, p);
    ExternalsKeep(Moved(w.fsm, i, p), i.mid);
  }

  // ---- A lift that is not lowered for long enough ----------------------------------------------

  const LAUNCH: int := TICK_US + TRANSITION_DELAY_US

  /** Tick k of a run of 20 ms ticks: START in the first, UNDO in tick n; the
      jack is at home up to the launch. */
  function UndoTick(k: nat, n: nat, p: Params): Input {
    Input([], (k + 1) * TICK_US, true, k <= 50, false, false, false, p.lowProtectionV, false, 0,
          if k == 0 then [Start] else if k == n then [Undo] else [], [])
  }

  function UndoRun(n: nat, p: Params): (ins: seq<Input>)
    ensures |ins| == n + 1
  {
    seq(n + 1, k requires 0 <= k < n + 1 => UndoTick(k, n, p))
  }

  /** Where the device is after k ticks: counting down to the launch, then
      lifting since the launch. */
  ghost predicate Underway(m: Fsm, l: Lift, k: nat, p: Params) {
    && m.enabled
    && if k <= 50 then
         m.state == MOVE_START_DELAY && m.timerEnd == LAUNCH && l == NoLift
       else
         && m.state == JACK_UP_START && m.timerEnd == LAUNCH + JackPreTime(p)
         && m.jackPosUs == (k - 51) * TICK_US && l == Lifting(LAUNCH)
  }

  lemma LiftDrainOne(l: Lift, m: Fsm, c: Cmd, i: Input, p: Params)
    ensures LiftDrain(l, m, [c], i, p) == LiftCommand(l, m, Command(m, c, i, p))
  {
    var r := Command(m, c, i, p);
    assert [c][1..] == [];
    assert LiftDrain(LiftCommand(l, m, r), r, [], i, p) == LiftCommand(l, m, r);
  }

  lemma FirstTick(p: Params, n: nat, remaining: real)
    requires n > 50 && remaining > 0.0
    ensures var w := BootWorld(remaining, 0);
            Underway(Tick(w, UndoTick(0, n, p), p).fsm, LiftTick(NoLift, w, UndoTick(0, n, p), p), 1, p)
  {
    var m := BootWorld(remaining, 0).fsm;
    var i := UndoTick(0, n, p);
    var c := m.(now := i.now, encoder := Wrap16(m.encoder + i.edges));
    DrainOne(c, Start, i, p);
    LiftDrainOne(NoLift, c, Start, i, p);
  }

  lemma NextTick(w: World, l: Lift, p: Params, k: nat, n: nat)
    requires 0 < k < n && Underway(w.fsm, l, k, p)
    requires k > 50 ==> (k - 50) * TICK_US < JackPreTime(p) && ((k - 51) * TICK_US) as real < JackCap(p)
    ensures Underway(Tick(w, UndoTick(k, n, p), p).fsm, LiftTick(l, w, UndoTick(k, n, p), p), k + 1, p)
  {
  }

  lemma LastTick(w: World, l: Lift, p: Params, n: nat)
    requires n > 50 && Underway(w.fsm, l, n, p)
    ensures EntersJackDown(w, UndoTick(n, n, p), p)
    ensures LiftTick(l, w, UndoTick(n, n, p), p) == Abandoned((n - 50) * TICK_US)
  {
    var i := UndoTick(n, n, p);
    var c := w.fsm.(now := i.now, encoder := Wrap16(w.fsm.encoder + i.edges));
    DrainOne(c, Undo, i, p);
    LiftDrainOne(l, c, Undo, i, p);
  }

  lemma {:induction false} UndoRunUnderway(p: Params, n: nat, remaining: real, k: nat)
    requires n > 50 && remaining > 0.0 && 0 < k <= n
    requires k > 51 ==> (k - 51) * TICK_US < JackPreTime(p) && ((k - 52) * TICK_US) as real < JackCap(p)
    ensures var w := BootWorld(remaining, 0);
            var ins := UndoRun(n, p)[..k];
            Underway(WorldAfter(w, ins, p).fsm, LiftAfter(NoLift, w, ins, p), k, p)
  {
    var w, ins := BootWorld(remaining, 0), UndoRun(n, p);
    assert ins[..k][..k - 1] == ins[..k - 1];
    if k == 1 {
      assert ins[..0] == [];
      FirstTick(p, n, remaining);
    } else {
      UndoRunUnderway(p, n, remaining, k - 1);
      NextTick(WorldAfter(w, ins[..k - 1], p), LiftAfter(NoLift, w, ins[..k - 1], p), p, k - 1, n);
    }
  }

  lemma OrderlyUndoRun(n: nat, p: Params)
    ensures NoShutdown(UndoRun(n, p)) && ClockRuns(0, UndoRun(n, p))
  {
  }

  /** A tick by which the lift has taken longer than JACK_TIME, just. */
  lemma TooLong(p: Params) returns (n: nat)
    requires p.Bounded()
    ensures n > 50 && (n - 51) * TICK_US <= JackTimeFloor(p) < (n - 50) * TICK_US
  {
    JackTimeFloorNonNegative(p);
    n := 51 + JackTimeFloor(p) / TICK_US;
  }

  lemma UndoRunEnds(p: Params, n: nat, remaining: real)
    requires n > 50 && remaining > 0.0
    requires n > 51 ==> (n - 51) * TICK_US < JackPreTime(p) && ((n - 52) * TICK_US) as real < JackCap(p)
    ensures var w, ins := BootWorld(remaining, 0), UndoRun(n, p);
            && EntersJackDown(WorldAfter(w, ins[..n], p), ins[n], p)
            && LiftAfter(NoLift, w, ins, p) == Abandoned((n - 50) * TICK_US)
  {
    var w, ins := BootWorld(remaining, 0), UndoRun(n, p);
    UndoRunUnderway(p, n, remaining, n);
    LastTick(WorldAfter(w, ins[..n], p), LiftAfter(NoLift, w, ins[..n], p), p, n);
  }

  /** The last tick of the run enters JACK_DOWN for less than 105% of the time
      the jack was driven up. */
  ghost predicate LowersTooLittle(w: World, ins: seq<Input>, p: Params)
    requires ins != []
  {
    && EntersJackDown(WorldAfter(w, ins[..|ins| - 1], p), ins[|ins| - 1], p)
    && var v := WorldAfter(w, ins, p).fsm;
       v.timerEnd - v.timerStart < RaisedFor(LiftAfter(NoLift, w, ins, p)) * 105 / 100
  }

  /** The failing runs exist: whenever the first phase of the lift is longer than
      JACK_TIME (and JACK_TIME within the height cap), an UNDO late in it makes
      the device lower the jack for less time than it raised it. */
  lemma {:induction false} UndoLowersTooLittle(p: Params, remaining: real) returns (ins: seq<Input>)
    requires p.Bounded() && remaining > 0.0
    ensures ins != [] && NoShutdown(ins) && ClockRuns(0, ins)
    ensures JackTimeFloor(p) < JackPreTime(p) && JackTimeFloor(p) as real <= JackCap(p) ==>
              LowersTooLittle(BootWorld(remaining, 0), ins, p)
  {
    var n := TooLong(p);
    ins := UndoRun(n, p);
    OrderlyUndoRun(n, p);
    if JackTimeFloor(p) < JackPreTime(p) && JackTimeFloor(p) as real <= JackCap(p) {
      UndoRunEnds(p, n, remaining);
      LoweredEnoughIff(BootWorld(remaining, 0), ins, p);
    }
  }
}
