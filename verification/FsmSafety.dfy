// Safety of every tick of every run: motor exclusion, the safety input, the
// jog deadman, and the interlock as the whole device drives it.

module FsmSafety {
  import opened Interlock
  import opened FsmModel

  /** The world after the first n ticks. */
  function WorldAfter(w: World, ins: seq<Input>, p: Params): World
    decreases ins
  {
    if ins == [] then w else Tick(WorldAfter(w, ins[..|ins| - 1], p), ins[|ins| - 1], p)
  }

  lemma AfterStep(w: World, ins: seq<Input>, p: Params, n: nat)
    requires n < |ins|
    ensures WorldAfter(w, ins[..n + 1], p) == Tick(WorldAfter(w, ins[..n], p), ins[n], p)
  {
    assert ins[..n + 1][..n] == ins[..n];
  }

  lemma WorldAfterSnoc(w: World, ins: seq<Input>, i: Input, p: Params)
    ensures WorldAfter(w, ins + [i], p) == Tick(WorldAfter(w, ins, p), i, p)
  {
    assert (ins + [i])[..|ins|] == ins;
  }

  lemma DrainOne(m: Fsm, c: Cmd, i: Input, p: Params)
    ensures Drain(m, [c], i, p) == Command(m, c, i, p)
  {
    assert [c][1..] == [];
    assert Drain(Command(m, c, i, p), [], i, p) == Command(m, c, i, p);
  }

  // ---- Commands never energise anything by themselves ----------------------------

  lemma {:induction false} DrainEnabled(m: Fsm, cmds: seq<Cmd>, i: Input, p: Params)
    ensures Drain(m, cmds, i, p).enabled <==> m.enabled && Shutdown !in cmds
    ensures Drain(m, cmds, i, p).now == m.now
    decreases cmds
  {
    if cmds != [] {
      DrainEnabled(Command(m, cmds[0], i, p), cmds[1..], i, p);
      assert cmds == [cmds[0]] + cmds[1..];
    }
  }

  lemma {:induction false} ExternalsKeep(m: Fsm, xs: seq<External>)
    ensures var r := ApplyExternals(m, xs);
            && r.enabled == m.enabled && r.state == m.state && r.now == m.now
            && r.jackPosUs == m.jackPosUs && r.timerStart == m.timerStart && r.timerEnd == m.timerEnd
            && r.moveDist == m.moveDist && r.encoder == m.encoder && r.moveStartEncoder == m.moveStartEncoder
            && r.jackStartUs == m.jackStartUs && r.jackFinishUs == m.jackFinishUs
    decreases xs
  {
    if xs != [] {
      ExternalsKeep(ApplyExternal(m, xs[0]), xs[1..]);
    }
  }

  /** A tick runs to its end unless a shutdown was drained. */
  lemma TickCompletes(m: Fsm, i: Input, p: Params)
    ensures Drained(m, i, p).enabled <==> m.enabled && Shutdown !in i.cmds
    ensures Drained(m, i, p).now == i.now
  {
    var b := ApplyExternals(m, i.before);
    ExternalsKeep(m, i.before);
    DrainEnabled(b.(now := i.now, encoder := Wrap16(b.encoder + i.edges)), i.cmds, i, p);
  }

  // ---- Exclusion -------------------------------------------------------------------

  /** JACK is never energised together with DRIVE or AUX. */
  predicate Exclusive(r: Relays) {
    r.jack != Off ==> r.drive == Off && r.aux == Off
  }

  lemma RequestExclusive(m: Fsm, i: Input, p: Params)
    ensures Exclusive(Request(m, i, p))
  {
  }

  /** Exclusion holds on the relay word and in the interlock's memory after
      every tick of every run. */
  lemma {:induction false} ExclusionAlways(w: World, ins: seq<Input>, p: Params)
    requires Exclusive(w.wire) && Exclusive(Outputs(w.bank))
    ensures Exclusive(WorldAfter(w, ins, p).wire) && Exclusive(Outputs(WorldAfter(w, ins, p).bank))
    decreases |ins|
  {
    if ins != [] {
      var v, i := WorldAfter(w, ins[..|ins| - 1], p), ins[|ins| - 1];
      ExclusionAlways(w, ins[..|ins| - 1], p);
      RequestExclusive(Moved(v.fsm, i, p), i, p);
    }
  }

  // ---- The safety input ---------------------------------------------------------------

  /** The states a tick may end in while the safety input is broken. */
  predicate SafeState(s: State) {
    s in {IDLE, UNDO_JACK_START, JACK_DOWN, CALIBRATE_JACK_DELAY, CALIBRATE_JACK_MOVE, CALIBRATE_DRIVE_DELAY}
  }

  /** Broken safety has DRIVE off on the relay word. */
  predicate DriveCut(w: World) {
    !w.isSafe ==> w.wire.drive == Off
  }

  /** A tick with the safety input broken, whatever was queued and whatever
      other tasks did, ends with DRIVE off on the relay word; unless it drained
      a shutdown, after which no further tick comes, its state is a safe one. */
  lemma UnsafeTick(w: World, i: Input, p: Params)
    requires w.fsm.enabled && DriveCut(w) && !i.safe
    ensures Tick(w, i, p).wire.drive == Off
    ensures Shutdown !in i.cmds ==> SafeState(Tick(w, i, p).fsm.state)
    ensures w.isSafe && Shutdown in i.cmds ==> Tick(w, i, p).wire == ALL_OFF
  {
    TickCompletes(w.fsm, i, p);
    if Shutdown !in i.cmds {
      ExternalsKeep(Moved(w.fsm, i, p), i.mid);
    }
  }

  /** In every run, whatever happens, DRIVE is off whenever the device holds
      the safety input for broken. */
  lemma {:induction false} DriveCutAlways(w: World, ins: seq<Input>, p: Params)
    requires DriveCut(w)
    ensures DriveCut(WorldAfter(w, ins, p))
    decreases |ins|
  {
    if ins != [] {
      var v, i := WorldAfter(w, ins[..|ins| - 1], p), ins[|ins| - 1];
      DriveCutAlways(w, ins[..|ins| - 1], p);
      if v.fsm.enabled && !i.safe {
        UnsafeTick(v, i, p);
      }
    }
  }

  /** Every unsafe tick of every run ends with DRIVE off. */
  lemma {:induction false} UnsafeTicksCut(w: World, ins: seq<Input>, p: Params, n: nat)
    requires DriveCut(w) && n < |ins| && !ins[n].safe
    ensures WorldAfter(w, ins[..n], p).fsm.enabled ==> WorldAfter(w, ins[..n + 1], p).wire.drive == Off
  {
    DriveCutAlways(w, ins[..n], p);
    AfterStep(w, ins, p, n);
    if WorldAfter(w, ins[..n], p).fsm.enabled {
      UnsafeTick(WorldAfter(w, ins[..n], p), ins[n], p);
    }
  }

  // ---- Cut and switched on again within one tick ----------------------------------------

  function RelayOf(r: Relays, b: BridgeId): Dir {
    match b
    case Drive => r.drive
    case Jack => r.jack
    case Aux => r.aux
  }

  /** The relay word is what the interlock remembers: so at boot and after
      every tick that runs to its end. */
  predicate Wired(w: World) { w.wire == Outputs(w.bank) }

  /** A live jog that asks bridge b for d. */
  predicate Jogs(m: Fsm, i: Input, p: Params, b: BridgeId, d: Dir) {
    m.state == IDLE && m.overrideTime > m.now && RelayOf(OverrideRequest(m, i, p), b) == d
  }

  /** What the interlock takes for "no change" when the safety input breaks: the
      bridge is asked for the direction it had before the cut. */
  predicate AskedAgain(m: Fsm, i: Input, p: Params, b: BridgeId, d: Dir) {
    match b
    case Drive => false
    case Jack =>
      || Jogs(m, i, p, Jack, d)
      || (m.state == CALIBRATE_JACK_MOVE && d == Fwd)
      || (m.state == JACK_DOWN && d == Rev)
    case Aux => Jogs(m, i, p, Aux, d) || (m.state == UNDO_JACK_START && d == Fwd)
  }

  /** In the tick in which the safety input breaks every bridge is switched off.
      One that was on is on again at the tick's end, at once and without any
      hold-off, if and only if it is not DRIVE and the jack is being lowered
      (JACK) or calibrated, UNDO waits with the fluffer on (AUX), or a jog asks
      for the same direction. */
  lemma BackOnIff(w: World, i: Input, p: Params, b: BridgeId)
    requires w.fsm.enabled && Shutdown !in i.cmds && Wired(w)
    requires w.isSafe && !i.safe && RelayOf(w.wire, b) != Off
    ensures CheckedWire(w, i) == ALL_OFF
    ensures RelayOf(Tick(w, i, p).wire, b) != Off <==> AskedAgain(Moved(w.fsm, i, p), i, p, b, RelayOf(w.wire, b))
  {
    TickKeepsEnabled(w, i, p);
    if b != Drive {
      AskedAgainIs(Moved(w.fsm, i, p), i, p, b, RelayOf(w.wire, b));
    }
  }

  lemma AskedAgainIs(m: Fsm, i: Input, p: Params, b: BridgeId, d: Dir)
    requires SafeState(m.state) && d != Off && b != Drive
    ensures RelayOf(Request(m, i, p), b) == d <==> AskedAgain(m, i, p, b, d)
  {
  }

  // ---- The interlock, as the device drives it -------------------------------------------

  /** What the device asks of one bridge, tick by tick. */
  function Asks(w: World, ins: seq<Input>, p: Params, b: BridgeId): (r: seq<Ask>)
    ensures |r| == |ins|
    decreases ins
  {
    if ins == [] then []
    else
      var i := ins[|ins| - 1];
      var m := Moved(WorldAfter(w, ins[..|ins| - 1], p).fsm, i, p);
      var q := Request(m, i, p);
      Asks(w, ins[..|ins| - 1], p, b) +
      [match b
       case Drive => Ask(q.drive, i.now, !i.safe)
       case Jack => Ask(q.jack, i.now, false)
       case Aux => Ask(q.aux, i.now, false)]
  }

  function BridgeOf(k: Bank, b: BridgeId): Bridge {
    match b
    case Drive => k.drive
    case Jack => k.jack
    case Aux => k.aux
  }

  ghost predicate NoShutdown(ins: seq<Input>) {
    forall j :: 0 <= j < |ins| ==> Shutdown !in ins[j].cmds
  }

  lemma {:induction false} StaysEnabled(w: World, ins: seq<Input>, p: Params)
    requires w.fsm.enabled && NoShutdown(ins)
    ensures WorldAfter(w, ins, p).fsm.enabled
    decreases |ins|
  {
    if ins != [] {
      var v, i := WorldAfter(w, ins[..|ins| - 1], p), ins[|ins| - 1];
      StaysEnabled(w, ins[..|ins| - 1], p);
      TickKeepsEnabled(v, i, p);
    }
  }

  lemma TransitionKeeps(m: Fsm, i: Input, p: Params)
    ensures Transition(m, i, p).enabled == m.enabled && Transition(m, i, p).now == m.now
  {
  }

  lemma TickKeepsEnabled(w: World, i: Input, p: Params)
    requires w.fsm.enabled && Shutdown !in i.cmds
    ensures Tick(w, i, p).fsm.enabled && Tick(w, i, p).fsm.now == i.now
    ensures var bank := StepBank(w.bank, Request(Moved(w.fsm, i, p), i, p), i.now, 2 * p.inrushUs, i.safe);
            Tick(w, i, p) == World(Track(ApplyExternals(Moved(w.fsm, i, p), i.mid), i, p), bank, Outputs(bank), i.safe)
  {
    TickCompletes(w.fsm, i, p);
    TransitionKeeps(Drained(w.fsm, i, p), i, p);
    ExternalsKeep(Moved(w.fsm, i, p), i.mid);
  }

  /** Each bridge of the device runs through the interlock on its own asks, so
      every property of Interlock's runs is a property of the device. */
  lemma {:induction false} DeviceRunsInterlock(w: World, ins: seq<Input>, p: Params, b: BridgeId)
    requires w.fsm.enabled && NoShutdown(ins)
    ensures BridgeOf(WorldAfter(w, ins, p).bank, b)
         == Interlock.After(BridgeOf(w.bank, b), Asks(w, ins, p, b), 2 * p.inrushUs)
    decreases |ins|
  {
    if ins != [] {
      var last := |ins| - 1;
      var v, i := WorldAfter(w, ins[..last], p), ins[last];
      StaysEnabled(w, ins[..last], p);
      TickKeepsEnabled(v, i, p);
      DeviceRunsInterlock(w, ins[..last], p, b);
      assert Asks(w, ins, p, b)[..last] == Asks(w, ins[..last], p, b);
    }
  }

  // ---- The jog deadman ------------------------------------------------------------------

  ghost predicate ArmsAtMost(xs: seq<External>, us: int) {
    forall j :: 0 <= j < |xs| && xs[j].Arm? ==> xs[j].us <= us
  }

  lemma {:induction false} DrainKeepsOverride(m: Fsm, cmds: seq<Cmd>, i: Input, p: Params)
    ensures Drain(m, cmds, i, p).overrideTime == m.overrideTime
    ensures Drain(m, cmds, i, p).overrideCmd == m.overrideCmd
    decreases cmds
  {
    if cmds != [] {
      DrainKeepsOverride(Command(m, cmds[0], i, p), cmds[1..], i, p);
    }
  }

  lemma TransitionKeepsOverride(m: Fsm, i: Input, p: Params)
    ensures Transition(m, i, p).overrideTime == m.overrideTime
    ensures Transition(m, i, p).overrideCmd == m.overrideCmd
  {
  }

  /** Nothing was armed in these ticks. */
  ghost predicate NoArms(ins: seq<Input>) {
    forall j :: 0 <= j < |ins| ==> ArmsAtMost(ins[j].before, -1) && ArmsAtMost(ins[j].mid, -1)
  }

  lemma {:induction false} OverrideOnlyFalls(m: Fsm, xs: seq<External>)
    requires ArmsAtMost(xs, -1)
    ensures ApplyExternals(m, xs).overrideTime in {m.overrideTime, 0}
    decreases xs
  {
    if xs != [] {
      OverrideOnlyFalls(ApplyExternal(m, xs[0]), xs[1..]);
    }
  }

  lemma {:induction false} DeadmanRun(w: World, ins: seq<Input>, p: Params)
    requires w.fsm.enabled && NoShutdown(ins) && NoArms(ins)
    ensures WorldAfter(w, ins, p).fsm.overrideTime in {w.fsm.overrideTime, 0}
    decreases |ins|
  {
    if ins != [] {
      var last := |ins| - 1;
      var v, i := WorldAfter(w, ins[..last], p), ins[last];
      DeadmanRun(w, ins[..last], p);
      StaysEnabled(w, ins[..last], p);
      TickKeepsEnabled(v, i, p);
      OverrideThroughTick(v.fsm, i, p);
    }
  }

  lemma OverrideThroughTick(m: Fsm, i: Input, p: Params)
    requires ArmsAtMost(i.before, -1) && ArmsAtMost(i.mid, -1)
    ensures Moved(m, i, p).overrideTime in {m.overrideTime, 0}
    ensures ApplyExternals(Moved(m, i, p), i.mid).overrideTime in {m.overrideTime, 0}
  {
    var b := ApplyExternals(m, i.before);
    OverrideOnlyFalls(m, i.before);
    DrainKeepsOverride(b.(now := i.now, encoder := Wrap16(b.encoder + i.edges)), i.cmds, i, p);
    TransitionKeepsOverride(Drained(m, i, p), i, p);
    OverrideOnlyFalls(Moved(m, i, p), i.mid);
  }

  /** The deadman: once nothing has been armed for as long as the last pulse
      was to last, an idle device asks for nothing. */
  lemma Deadman(w: World, ins: seq<Input>, p: Params, us: nat)
    requires w.fsm.enabled && NoShutdown(ins) && NoArms(ins) && ins != []
    requires w.fsm.now >= 0 && w.fsm.overrideTime <= w.fsm.now + us
    requires ins[|ins| - 1].now >= w.fsm.now + us
    ensures var last := |ins| - 1;
            var m := Moved(WorldAfter(w, ins[..last], p).fsm, ins[last], p);
            m.state == IDLE ==> Request(m, ins[last], p) == ALL_OFF
  {
    var last := |ins| - 1;
    var v, i := WorldAfter(w, ins[..last], p), ins[last];
    DeadmanRun(w, ins[..last], p);
    OverrideThroughTick(v.fsm, i, p);
    TickCompletes(v.fsm, i, p);
    TransitionKeeps(Drained(v.fsm, i, p), i, p);
  }
}
