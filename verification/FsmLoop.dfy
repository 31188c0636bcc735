// The control task's loop over a whole run, from boot, and what the interlock
// promises about the relays of the device it drives.

module FsmLoop {
  import opened Interlock
  import opened FsmModel
  import opened FsmTask
  import opened FsmSafety
  import opened FsmJack
  import opened FsmDistance

  // ---- The loop ---------------------------------------------------------------------

  method RequestAll(task: ControlTask, cmds: seq<Cmd>)
    requires |task.queue| + |cmds| <= CMD_QUEUE_SIZE
    modifies task`queue
    ensures task.queue == old(task.queue) + cmds
  {
    for k := 0 to |cmds|
      invariant task.queue == old(task.queue) + cmds[..k]
    {
      task.FsmRequest(cmds[k]);
    }
    assert cmds[..|cmds|] == cmds;
  }

  lemma {:induction false} Halted(w: World, ins: seq<Input>, p: Params, n: nat)
    requires n <= |ins| && !WorldAfter(w, ins[..n], p).fsm.enabled
    ensures WorldAfter(w, ins, p) == WorldAfter(w, ins[..n], p)
    decreases |ins|
  {
    if n < |ins| {
      var last := |ins| - 1;
      assert ins[..last][..n] == ins[..n];
      Halted(w, ins[..last], p, n);
    } else {
      assert ins[..n] == ins;
    }
  }

  /** The loop of the control task: tick by tick, until a shutdown. */
  method ControlLoop(task: ControlTask, ins: seq<Input>)
    requires task.Valid() && task.queue == []
    requires forall j :: 0 <= j < |ins| ==> |ins[j].cmds| <= CMD_QUEUE_SIZE
    modifies task, task.relays, task.relays.onUs, task.relays.offUs
    ensures task.Valid() && task.Contents() == WorldAfter(old(task.Contents()), ins, task.params)
  {
    ghost var w, p := task.Contents(), task.params;
    var n := 0;
    while n < |ins| && task.enabled
      invariant 0 <= n <= |ins|
      invariant task.Valid() && task.queue == []
      invariant task.Contents() == WorldAfter(w, ins[..n], p)
    {
      RequestAll(task, ins[n].cmds);
      task.RunTick(ins[n]);
      FsmSafety.AfterStep(w, ins, p, n);
      n := n + 1;
    }
    if n < |ins| {
      Halted(w, ins, p, n);
    } else {
      assert ins[..n] == ins;
    }
  }

  // ---- At boot -------------------------------------------------------------------------

  /** At boot every invariant of the runs holds: those of position and distance
      exactly when the values that survived the reset are in range. */
  lemma BootStarts(remaining: real, jackPosUs: int, p: Params, hold: nat)
    ensures var w := BootWorld(remaining, jackPosUs);
            && Exclusive(w.wire) && Exclusive(Outputs(w.bank)) && Wired(w) && DriveCut(w)
            && LiftKnown(w.fsm, NoLift)
            && (forall b: BridgeId :: OnIsLate(BridgeOf(w.bank, b), hold))
            && (Accountable(w.fsm) <==> remaining >= 0.0)
            && (Capped(w.fsm, p) <==> 0 <= jackPosUs && jackPosUs as real <= JackCap(p) + TICK_US as real)
  {
  }

  // ---- Two runs from boot ------------------------------------------------------------------

  /** A tick at which other tasks may act and safety may be broken. */
  function JogTick(before: seq<External>, now: int, safe: bool, mid: seq<External>): Input {
    Input(before, now, safe, false, false, false, false, 13.0, false, 0, [], mid)
  }

  /** The device at rest since boot, one tick on. */
  lemma FirstTick(remaining: real, jackPosUs: int, t: int, p: Params) returns (w: World)
    ensures w == Tick(BootWorld(remaining, jackPosUs), JogTick([], t, true, []), p)
    ensures w.fsm.enabled && w.fsm.state == IDLE && w.fsm.now == t && w.bank.jack == Bridge(Off, 0, 0) && w.isSafe
    ensures w.fsm.jackPosUs == jackPosUs
  {
    w := Tick(BootWorld(remaining, jackPosUs), JogTick([], t, true, []), p);
    TickKeepsEnabled(BootWorld(remaining, jackPosUs), JogTick([], t, true, []), p);
  }

  /** A forced jog asked for at rest: the jack is on in that tick. */
  lemma ForcedJog(w: World, cmd: Override, us: int, mid: seq<External>, p: Params)
    requires w.fsm.enabled && w.fsm.state == IDLE && w.bank.jack == Bridge(Off, 0, 0)
    requires cmd in {OvJackUpForce, OvJackDownForce} && us > TICK_US && w.fsm.now > 2 * p.inrushUs
    ensures var i := JogTick([Arm(cmd, us)], w.fsm.now + TICK_US, true, mid);
            var armed := w.fsm.(overrideCmd := cmd, overrideTime := w.fsm.now + us,
                                now := i.now, encoder := Wrap16(w.fsm.encoder));
            && Moved(w.fsm, i, p) == armed
            && Tick(w, i, p).wire.jack == (if cmd == OvJackUpForce then Fwd else Rev)
            && Tick(w, i, p).bank.jack == Bridge(Tick(w, i, p).wire.jack, 0, i.now)
            && Tick(w, i, p).fsm == Track(ApplyExternals(armed, mid), i, p)
            && Tick(w, i, p).isSafe
  {
    var i := JogTick([Arm(cmd, us)], w.fsm.now + TICK_US, true, mid);
    assert ApplyExternals(w.fsm, i.before) == ApplyExternal(w.fsm, Arm(cmd, us));
    TickKeepsEnabled(w, i, p);
  }

  /** From boot: the jack is jogged down, safety breaks, every relay is cut, and
      the jack is on again at the end of the same tick. */
  lemma BackOnFromBoot(remaining: real, jackPosUs: int, t: int, us: int, p: Params)
    requires t > 2 * p.inrushUs && us > 2 * TICK_US
    ensures var ins := [JogTick([], t, true, []), JogTick([Arm(OvJackDownForce, us)], t + TICK_US, true, []),
                        JogTick([], t + 2 * TICK_US, false, [])];
            var on := WorldAfter(BootWorld(remaining, jackPosUs), ins[..2], p);
            && on.wire.jack == Rev
            && CheckedWire(on, ins[2]) == ALL_OFF
            && WorldAfter(BootWorld(remaining, jackPosUs), ins, p).wire.jack == Rev
  {
    var w := FirstTick(remaining, jackPosUs, t, p);
    ForcedJog(w, OvJackDownForce, us, [], p);
    var i, j := JogTick([Arm(OvJackDownForce, us)], t + TICK_US, true, []), JogTick([], t + 2 * TICK_US, false, []);
    ThreeTicks(BootWorld(remaining, jackPosUs), JogTick([], t, true, []), i, j, p);
  }

  lemma ThreeTicks(w: World, i: Input, j: Input, k: Input, p: Params)
    ensures WorldAfter(w, [i, j, k][..2], p) == Tick(Tick(w, i, p), j, p)
    ensures WorldAfter(w, [i, j, k], p) == Tick(Tick(Tick(w, i, p), j, p), k, p)
  {
    var ins := [i, j, k];
    FsmSafety.AfterStep(w, ins, p, 0);
    FsmSafety.AfterStep(w, ins, p, 1);
    FsmSafety.AfterStep(w, ins, p, 2);
    assert ins[..3] == ins;
  }

  /** From boot: the jack is jogged up, the jog is taken back between the tick's
      two looks at it, and the lift goes uncounted. */
  lemma UncountedFromBoot(remaining: real, jackPosUs: int, t: int, us: int, p: Params)
    requires t > 2 * p.inrushUs && us > TICK_US
    ensures var ins := [JogTick([], t, true, []), JogTick([Arm(OvJackUpForce, us)], t + TICK_US, true, [StopOverride])];
            var w := WorldAfter(BootWorld(remaining, jackPosUs), ins, p);
            w.wire.jack == Fwd && w.fsm.jackPosUs == jackPosUs
  {
    var first := JogTick([], t, true, []);
    var w := FirstTick(remaining, jackPosUs, t, p);
    ForcedJog(w, OvJackUpForce, us, [StopOverride], p);
    var i := JogTick([Arm(OvJackUpForce, us)], t + TICK_US, true, [StopOverride]);
    var m := Moved(w.fsm, i, p);
    assert ApplyExternals(m, i.mid) == ApplyExternal(m, StopOverride);
    FsmSafety.AfterStep(BootWorld(remaining, jackPosUs), [first, i], p, 0);
    FsmSafety.AfterStep(BootWorld(remaining, jackPosUs), [first, i], p, 1);
    assert [first, i][..2] == [first, i];
  }

  // ---- No motion out of nothing --------------------------------------------------------------

  /** A START was drained in a tick whose gates were all open. */
  predicate Starts(i: Input, p: Params) {
    && (Start in i.cmds || StartIgnoreOvertravel in i.cmds)
    && i.battery >= p.lowProtectionV && i.safe && !i.driveTrip && !i.jackTrip && !i.auxTrip
  }

  lemma {:induction false} DrainCommits(m: Fsm, cmds: seq<Cmd>, i: Input, p: Params)
    requires Committed(Drain(m, cmds, i, p).state) && !Committed(m.state)
    ensures (Start in cmds || StartIgnoreOvertravel in cmds) && StartGuard(i, p) == NoError
    decreases cmds
  {
    var r := Command(m, cmds[0], i, p);
    if !Committed(r.state) {
      DrainCommits(r, cmds[1..], i, p);
    }
  }

  lemma TickCommits(w: World, i: Input, p: Params)
    requires Committed(Tick(w, i, p).fsm.state) && !Committed(w.fsm.state)
    ensures Starts(i, p)
  {
    var b := ApplyExternals(w.fsm, i.before);
    ExternalsKeep(w.fsm, i.before);
    ExternalsKeep(Moved(w.fsm, i, p), i.mid);
    DrainCommits(b.(now := i.now, encoder := Wrap16(b.encoder + i.edges)), i.cmds, i, p);
  }

  /** No move without a START that passed every gate: a device that is in a
      move after some run, and was not before, drained one during the run. */
  lemma {:induction false} MovesAreStarted(w: World, ins: seq<Input>, p: Params)
    requires !Committed(w.fsm.state)
    ensures Committed(WorldAfter(w, ins, p).fsm.state) ==> exists j :: 0 <= j < |ins| && Starts(ins[j], p)
    decreases |ins|
  {
    if ins != [] {
      var last := |ins| - 1;
      MovesAreStarted(w, ins[..last], p);
      if Committed(WorldAfter(w, ins[..last], p).fsm.state) {
        var j :| 0 <= j < last && Starts(ins[..last][j], p);
        assert Starts(ins[j], p);
      } else if Committed(WorldAfter(w, ins, p).fsm.state) {
        TickCommits(WorldAfter(w, ins[..last], p), ins[last], p);
      }
    }
  }

  /** Nothing that could energise a motor: no START, no calibration, no jog. */
  ghost predicate Calm(i: Input) {
    && (forall k :: 0 <= k < |i.cmds| ==> i.cmds[k] in {Stop, Undo, Shutdown})
    && ArmsAtMost(i.before, -1) && ArmsAtMost(i.mid, -1)
  }

  /** Idle, everything off and no jog running. */
  ghost predicate AtRest(w: World) {
    w.fsm.state == IDLE && w.wire == ALL_OFF && Outputs(w.bank) == ALL_OFF && w.fsm.overrideTime <= 0
  }

  lemma {:induction false} CalmDrain(m: Fsm, cmds: seq<Cmd>, i: Input, p: Params)
    requires m.state == IDLE && forall k :: 0 <= k < |cmds| ==> cmds[k] in {Stop, Undo, Shutdown}
    ensures Drain(m, cmds, i, p).state == IDLE
    decreases cmds
  {
    if cmds != [] {
      CalmDrain(Command(m, cmds[0], i, p), cmds[1..], i, p);
    }
  }

  lemma RestingTick(w: World, i: Input, p: Params)
    requires AtRest(w) && Calm(i) && i.now >= 0
    ensures AtRest(Tick(w, i, p))
  {
    var b := ApplyExternals(w.fsm, i.before);
    ExternalsKeep(w.fsm, i.before);
    OverrideOnlyFalls(w.fsm, i.before);
    CalmDrain(b.(now := i.now, encoder := Wrap16(b.encoder + i.edges)), i.cmds, i, p);
    DrainKeepsOverride(b.(now := i.now, encoder := Wrap16(b.encoder + i.edges)), i.cmds, i, p);
    TickCompletes(w.fsm, i, p);
    ExternalsKeep(Moved(w.fsm, i, p), i.mid);
    OverrideThroughTick(w.fsm, i, p);
  }

  /** A device at rest stays at rest, every relay off, in every run that asks
      for nothing. */
  lemma {:induction false} StaysAtRest(w: World, ins: seq<Input>, p: Params)
    requires AtRest(w)
    requires forall j :: 0 <= j < |ins| ==> Calm(ins[j]) && ins[j].now >= 0
    ensures AtRest(WorldAfter(w, ins, p))
    decreases |ins|
  {
    if ins != [] {
      StaysAtRest(w, ins[..|ins| - 1], p);
      RestingTick(WorldAfter(w, ins[..|ins| - 1], p), ins[|ins| - 1], p);
    }
  }

  // ---- The interlock on the device's own requests ------------------------------------------

  ghost predicate ClockMonotone(ins: seq<Input>) {
    forall j, k :: 0 <= j < k < |ins| ==> ins[j].now <= ins[k].now
  }

  lemma {:induction false} AsksAt(w: World, ins: seq<Input>, p: Params, b: BridgeId, n: nat)
    requires n < |ins|
    ensures Asks(w, ins, p, b)[n].now == ins[n].now
    ensures Asks(w, ins, p, b)[n].cut <==> b == Drive && !ins[n].safe
    decreases |ins|
  {
    if n < |ins| - 1 {
      AsksAt(w, ins[..|ins| - 1], p, b, n);
    }
  }

  lemma {:induction false} AsksPrefix(w: World, ins: seq<Input>, p: Params, b: BridgeId, n: nat)
    requires n <= |ins|
    ensures Asks(w, ins, p, b)[..n] == Asks(w, ins[..n], p, b)
    decreases |ins|
  {
    if n < |ins| {
      AsksPrefix(w, ins[..|ins| - 1], p, b, n);
      assert ins[..|ins| - 1][..n] == ins[..n];
      assert Asks(w, ins, p, b)[..|ins| - 1] == Asks(w, ins[..|ins| - 1], p, b);
      assert Asks(w, ins, p, b)[..n] == Asks(w, ins[..|ins| - 1], p, b)[..n];
    } else {
      assert ins[..n] == ins;
    }
  }

  /** What bridge b puts out after the first n ticks. */
  function RelayAfter(w: World, ins: seq<Input>, p: Params, b: BridgeId, n: nat): Dir
    requires n <= |ins|
  {
    RelayOf(WorldAfter(w, ins[..n], p).wire, b)
  }

  lemma {:induction false} WiredAlways(w: World, ins: seq<Input>, p: Params)
    requires w.fsm.enabled && NoShutdown(ins) && Wired(w)
    ensures Wired(WorldAfter(w, ins, p))
  {
    if ins != [] {
      var last := |ins| - 1;
      StaysEnabled(w, ins[..last], p);
      TickKeepsEnabled(WorldAfter(w, ins[..last], p), ins[last], p);
    }
  }

  lemma {:induction false} RelayIsOutput(w: World, ins: seq<Input>, p: Params, b: BridgeId, n: nat)
    requires n <= |ins| && w.fsm.enabled && NoShutdown(ins) && Wired(w)
    ensures RelayAfter(w, ins, p, b, n)
         == Interlock.After(BridgeOf(w.bank, b), Asks(w, ins, p, b)[..n], 2 * p.inrushUs).last
  {
    AsksPrefix(w, ins, p, b, n);
    WiredAlways(w, ins[..n], p);
    DeviceRunsInterlock(w, ins[..n], p, b);
  }

  /** In every run no relay reverses from one tick to the next. */
  lemma {:induction false} NoRelayReverses(w: World, ins: seq<Input>, p: Params, b: BridgeId, n: nat)
    requires n < |ins| && w.fsm.enabled && NoShutdown(ins) && Wired(w)
    ensures var d, d' := RelayAfter(w, ins, p, b, n), RelayAfter(w, ins, p, b, n + 1);
            d == d' || d == Off || d' == Off
  {
    RelayIsOutput(w, ins, p, b, n);
    RelayIsOutput(w, ins, p, b, n + 1);
    Interlock.AfterStep(BridgeOf(w.bank, b), Asks(w, ins, p, b), 2 * p.inrushUs, n);
  }

  lemma AsksMonotone(w: World, ins: seq<Input>, p: Params, b: BridgeId)
    requires ClockMonotone(ins)
    ensures Monotone(Asks(w, ins, p, b))
  {
    forall i, j | 0 <= i < j < |ins|
      ensures Asks(w, ins, p, b)[i].now <= Asks(w, ins, p, b)[j].now
    {
      AsksAt(w, ins, p, b, i);
      AsksAt(w, ins, p, b, j);
    }
  }

  /** The interlock run behind bridge b, at ticks i and j. */
  lemma AsksOfTicks(w: World, ins: seq<Input>, p: Params, b: BridgeId, i: nat, j: nat)
    returns (bridge: Bridge, asks: seq<Ask>)
    requires ClockMonotone(ins) && i < |ins| && j < |ins| && w.fsm.enabled && NoShutdown(ins) && Wired(w)
    ensures |asks| == |ins| && Monotone(asks) && asks[i].now == ins[i].now && asks[j].now == ins[j].now
    ensures asks[i].cut ==> b == Drive && !ins[i].safe
    ensures Interlock.After(bridge, asks[..i], 2 * p.inrushUs).last == RelayAfter(w, ins, p, b, i)
    ensures Interlock.After(bridge, asks[..i + 1], 2 * p.inrushUs).last == RelayAfter(w, ins, p, b, i + 1)
    ensures Interlock.After(bridge, asks[..j + 1], 2 * p.inrushUs).last == RelayAfter(w, ins, p, b, j + 1)
  {
    bridge, asks := BridgeOf(w.bank, b), Asks(w, ins, p, b);
    AsksAt(w, ins, p, b, i);
    AsksAt(w, ins, p, b, j);
    AsksMonotone(w, ins, p, b);
    RelayIsOutput(w, ins, p, b, i);
    RelayIsOutput(w, ins, p, b, i + 1);
    RelayIsOutput(w, ins, p, b, j + 1);
  }

  /** In every run, a relay of JACK or AUX that tick i leaves off stays off at
      the end of every tick up to twice the inrush time later; one of DRIVE does
      so too when the safety input is good at tick i.  Within a tick, the one
      switching on that comes sooner is that of BackOnIff. */
  lemma {:induction false} RelaysHoldOff(w: World, ins: seq<Input>, p: Params, b: BridgeId, i: nat, j: nat)
    requires w.fsm.enabled && NoShutdown(ins) && ClockMonotone(ins) && Wired(w)
    requires i <= j < |ins| && ins[j].now <= ins[i].now + 2 * p.inrushUs
    requires b != Drive || ins[i].safe
    requires RelayAfter(w, ins, p, b, i) != Off && RelayAfter(w, ins, p, b, i + 1) == Off
    ensures RelayAfter(w, ins, p, b, j + 1) == Off
  {
    var bridge, asks := AsksOfTicks(w, ins, p, b, i, j);
    HoldsOff(bridge, asks, 2 * p.inrushUs, i, j);
  }

  lemma HoldsOff(b: Bridge, asks: seq<Ask>, hold: nat, i: nat, j: nat)
    requires Monotone(asks) && i <= j < |asks| && asks[j].now <= asks[i].now + hold && !asks[i].cut
    requires After(b, asks[..i], hold).last != Off && After(b, asks[..i + 1], hold).last == Off
    ensures After(b, asks[..j + 1], hold).last == Off
  {
    assert TurnsOff(b, asks, hold, i);
    HoldOff(b, asks, hold, i, j);
  }
}
