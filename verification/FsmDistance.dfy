// Accounting of the remaining travel: what a move deducts, and when.

module FsmDistance {
  import opened FsmModel
  import opened FsmSafety
  import opened FsmTermination

  /** From START to the end of DRIVE. */
  predicate Committed(s: State) {
    s in {MOVE_START_DELAY, MOVE_JACK_RETRACT, MOVE_JACK_SETTLE, JACK_UP_START, JACK_UP,
          DRIVE_START_DELAY, DRIVE_FLUFF_START, DRIVE}
  }

  /** The planned distance is covered by what remains, and in DRIVE the encoder
      has only counted up. */
  ghost predicate Accountable(m: Fsm) {
    && 0.0 <= m.remaining
    && (Committed(m.state) ==> 0.0 <= m.moveDist <= m.remaining)
    && (m.state == DRIVE ==> m.moveStartEncoder <= m.encoder)
    && -0x8000 <= m.encoder < 0x8000
  }

  ghost predicate NoSetRemaining(xs: seq<External>) {
    forall j :: 0 <= j < |xs| ==> !xs[j].SetRemaining?
  }

  /** The distances clients set are not negative, and during a move not below
      the distance it has planned. */
  ghost predicate Funded(m: Fsm, xs: seq<External>) {
    forall j :: 0 <= j < |xs| && xs[j].SetRemaining? ==>
      0.0 <= xs[j].x && (Committed(m.state) ==> m.moveDist <= xs[j].x)
  }

  /** Funded settings of the distance at either point of the tick, overtravel
      starts (accepted or dropped) only while a whole move is left, and an
      encoder that stays within 16 bits during the tick. */
  ghost predicate Metered(m: Fsm, i: Input, p: Params) {
    && Funded(m, i.before)
    && (Drained(m, i, p).enabled ==> Funded(Moved(m, i, p), i.mid))
    && (StartIgnoreOvertravel in i.cmds ==> p.driveDist <= ApplyExternals(m, i.before).remaining)
    && (m.state == DRIVE ==> m.encoder + i.edges < 0x8000)
  }

  /** What setting the distance adds to it (or takes off it). */
  function Credit(remaining: real, xs: seq<External>): real
    decreases xs
  {
    if xs == [] then 0.0
    else match xs[0]
      case SetRemaining(x) => x - remaining + Credit(x, xs[1..])
      case _ => Credit(remaining, xs[1..])
  }

  lemma {:induction false} FundedExternals(m: Fsm, xs: seq<External>)
    requires Accountable(m) && Funded(m, xs)
    ensures Accountable(ApplyExternals(m, xs))
    ensures ApplyExternals(m, xs).remaining == m.remaining + Credit(m.remaining, xs)
    decreases xs
  {
    if xs != [] {
      FundedExternals(ApplyExternal(m, xs[0]), xs[1..]);
    }
  }

  lemma {:induction false} ExternalsKeepDistance(m: Fsm, xs: seq<External>)
    requires NoSetRemaining(xs)
    ensures ApplyExternals(m, xs).remaining == m.remaining
    decreases xs
  {
    if xs != [] {
      ExternalsKeepDistance(ApplyExternal(m, xs[0]), xs[1..]);
    }
  }

  lemma Wrap16Range(x: int)
    ensures -0x8000 <= Wrap16(x) < 0x8000
    ensures -0x8000 <= x < 0x8000 ==> Wrap16(x) == x
  {
  }

  /** Commands never touch the remaining distance, and a planned distance they
      set is covered by it. */
  lemma AccountableCommand(m: Fsm, c: Cmd, i: Input, p: Params)
    requires p.Bounded() && Accountable(m) && (c == StartIgnoreOvertravel ==> p.driveDist <= m.remaining)
    ensures Accountable(Command(m, c, i, p)) && Command(m, c, i, p).remaining == m.remaining
    ensures Command(m, c, i, p).state == DRIVE ==> m.state == DRIVE
  {
  }

  lemma {:induction false} AccountableDrain(m: Fsm, cmds: seq<Cmd>, i: Input, p: Params)
    requires p.Bounded() && Accountable(m) && (StartIgnoreOvertravel in cmds ==> p.driveDist <= m.remaining)
    ensures Accountable(Drain(m, cmds, i, p)) && Drain(m, cmds, i, p).remaining == m.remaining
    ensures Drain(m, cmds, i, p).state == DRIVE ==> m.state == DRIVE
    decreases cmds
  {
    if cmds != [] {
      AccountableCommand(m, cmds[0], i, p);
      AccountableDrain(Command(m, cmds[0], i, p), cmds[1..], i, p);
    }
  }

  lemma AccountableDrained(m: Fsm, i: Input, p: Params)
    requires p.Bounded() && Accountable(m) && Metered(m, i, p)
    ensures var d := Drained(m, i, p);
            && Accountable(d) && d.remaining == m.remaining + Credit(m.remaining, i.before)
            && (d.state == DRIVE ==> m.state == DRIVE)
  {
    var b := ApplyExternals(m, i.before);
    ExternalsKeep(m, i.before);
    FundedExternals(m, i.before);
    Wrap16Range(b.encoder + i.edges);
    AccountableDrain(b.(now := i.now, encoder := Wrap16(b.encoder + i.edges)), i.cmds, i, p);
  }

  /** What a transition takes off the remaining distance: the planned distance
      when DRIVE completes, the measured one (as far as there is any left) when
      its fuse trips, nothing otherwise. */
  function Deduction(m: Fsm, i: Input, p: Params): real {
    if m.state != DRIVE || !i.safe then 0.0
    else if i.driveTrip then
      (if Travelled(m, p) < m.remaining then Travelled(m, p) else m.remaining)
    else if TimerDone(m) || m.encoder > 0 then m.moveDist
    else 0.0
  }

  lemma QuotientNonNegative(a: int, b: real)
    requires a >= 0 && b > 0.0
    ensures a as real / b >= 0.0
  {
  }

  /** A transition deducts what Deduction says, never more than is left and
      never a negative amount; it deducts only on the way out of DRIVE. */
  lemma TransitionDeducts(m: Fsm, i: Input, p: Params)
    requires p.Bounded() && Accountable(m)
    ensures Transition(m, i, p).remaining == m.remaining - Deduction(m, i, p)
    ensures 0.0 <= Deduction(m, i, p) <= m.remaining
    ensures Deduction(m, i, p) != 0.0 ==> m.state == DRIVE && Transition(m, i, p).state != DRIVE
  {
    if m.state == DRIVE {
      QuotientNonNegative(m.encoder - m.moveStartEncoder, p.driveKe);
    }
  }

  lemma AccountableTransition(m: Fsm, i: Input, p: Params)
    requires p.Bounded() && Accountable(m)
    ensures Accountable(Transition(m, i, p))
  {
    TransitionDeducts(m, i, p);
    Wrap16Range(Trunc(-Counts(m.moveDist, p)));
  }

  /** What one tick deducts. */
  function TickDeduction(w: World, i: Input, p: Params): real {
    if w.fsm.enabled && Drained(w.fsm, i, p).enabled then Deduction(Drained(w.fsm, i, p), i, p) else 0.0
  }

  /** What clients add to the distance during one tick. */
  function TickCredit(w: World, i: Input, p: Params): real {
    if !w.fsm.enabled then 0.0
    else
      Credit(w.fsm.remaining, i.before) +
      if Drained(w.fsm, i, p).enabled then Credit(Moved(w.fsm, i, p).remaining, i.mid) else 0.0
  }

  lemma {:induction false} AccountableTick(w: World, i: Input, p: Params)
    requires p.Bounded() && Accountable(w.fsm) && Metered(w.fsm, i, p)
    ensures var v := Tick(w, i, p).fsm;
            var d := TickDeduction(w, i, p);
            && Accountable(v)
            && v.remaining == w.fsm.remaining + TickCredit(w, i, p) - d && d >= 0.0
            && (d != 0.0 ==> w.fsm.state == DRIVE && v.state != DRIVE)
  {
    if w.fsm.enabled {
      var d := Drained(w.fsm, i, p);
      AccountableDrained(w.fsm, i, p);
      TickCompletes(w.fsm, i, p);
      if d.enabled {
        TransitionDeducts(d, i, p);
        AccountableTransition(d, i, p);
        ExternalsKeep(Moved(w.fsm, i, p), i.mid);
        FundedExternals(Moved(w.fsm, i, p), i.mid);
      }
    }
  }

  lemma NoTickCredit(w: World, i: Input, p: Params)
    requires NoSetRemaining(i.before) && NoSetRemaining(i.mid)
    ensures TickCredit(w, i, p) == 0.0
  {
    NoCredit(w.fsm.remaining, i.before);
    NoCredit(Moved(w.fsm, i, p).remaining, i.mid);
  }

  lemma {:induction false} NoCredit(remaining: real, xs: seq<External>)
    requires NoSetRemaining(xs)
    ensures Credit(remaining, xs) == 0.0
    decreases xs
  {
    if xs != [] {
      NoCredit(remaining, xs[1..]);
    }
  }

  // ---- Over whole runs -------------------------------------------------------------------

  ghost predicate MeteredRun(w: World, ins: seq<Input>, p: Params) {
    forall j :: 0 <= j < |ins| ==> Metered(WorldAfter(w, ins[..j], p).fsm, ins[j], p)
  }

  /** The sum of all deductions of a run. */
  function Deducted(w: World, ins: seq<Input>, p: Params): real
    decreases ins
  {
    if ins == [] then 0.0
    else Deducted(w, ins[..|ins| - 1], p) + TickDeduction(WorldAfter(w, ins[..|ins| - 1], p), ins[|ins| - 1], p)
  }

  /** The sum of all that clients added. */
  function Credited(w: World, ins: seq<Input>, p: Params): real
    decreases ins
  {
    if ins == [] then 0.0
    else Credited(w, ins[..|ins| - 1], p) + TickCredit(WorldAfter(w, ins[..|ins| - 1], p), ins[|ins| - 1], p)
  }

  /** How many ticks of a run deducted something. */
  function Deductions(w: World, ins: seq<Input>, p: Params): nat
    decreases ins
  {
    if ins == [] then 0
    else Deductions(w, ins[..|ins| - 1], p) +
         if TickDeduction(WorldAfter(w, ins[..|ins| - 1], p), ins[|ins| - 1], p) != 0.0 then 1 else 0
  }

  /** How many ticks of a run entered DRIVE. */
  function DriveVisits(w: World, ins: seq<Input>, p: Params): nat
    decreases ins
  {
    if ins == [] then 0
    else DriveVisits(w, ins[..|ins| - 1], p) +
         if WorldAfter(w, ins[..|ins| - 1], p).fsm.state != DRIVE && WorldAfter(w, ins, p).fsm.state == DRIVE
         then 1 else 0
  }

  function InDrive(m: Fsm): nat { if m.state == DRIVE then 1 else 0 }

  lemma MeteredPrefix(w: World, ins: seq<Input>, p: Params)
    requires MeteredRun(w, ins, p) && ins != []
    ensures MeteredRun(w, ins[..|ins| - 1], p)
    ensures Metered(WorldAfter(w, ins[..|ins| - 1], p).fsm, ins[|ins| - 1], p)
  {
    var front := ins[..|ins| - 1];
    forall j | 0 <= j < |front|
      ensures Metered(WorldAfter(w, front[..j], p).fsm, front[j], p)
    {
      assert front[..j] == ins[..j];
      assert Metered(WorldAfter(w, ins[..j], p).fsm, ins[j], p);
    }
  }

  /** Conservation: over any metered run the remaining distance is what it was,
      plus what clients added, minus what moves deducted; it never goes below
      zero, no deduction is negative, and there is at most one for each visit to
      DRIVE. */
  lemma {:induction false} DistanceAccounting(w: World, ins: seq<Input>, p: Params)
    requires p.Bounded() && Accountable(w.fsm) && MeteredRun(w, ins, p)
    ensures var v := WorldAfter(w, ins, p).fsm;
            && Accountable(v)
            && 0.0 <= v.remaining == w.fsm.remaining + Credited(w, ins, p) - Deducted(w, ins, p)
            && 0.0 <= Deducted(w, ins, p)
            && Deductions(w, ins, p) + InDrive(v) <= DriveVisits(w, ins, p) + InDrive(w.fsm)
    decreases |ins|
  {
    if ins != [] {
      var last := |ins| - 1;
      MeteredPrefix(w, ins, p);
      DistanceAccounting(w, ins[..last], p);
      AccountableTick(WorldAfter(w, ins[..last], p), ins[last], p);
    }
  }

  /** Where no client sets it, the remaining distance only falls. */
  lemma {:induction false} NothingCredited(w: World, ins: seq<Input>, p: Params)
    requires forall j :: 0 <= j < |ins| ==> NoSetRemaining(ins[j].before) && NoSetRemaining(ins[j].mid)
    ensures Credited(w, ins, p) == 0.0
    decreases |ins|
  {
    if ins != [] {
      var last := |ins| - 1;
      NothingCredited(w, ins[..last], p);
      NoTickCredit(WorldAfter(w, ins[..last], p), ins[last], p);
    }
  }

  // ---- Below zero ---------------------------------------------------------------------------

  /** A calm tick at the end of the timer: nothing is asked, nothing trips. */
  function Calmly(now: int): Input {
    Input([], now, true, true, false, false, false, 0.0, false, 0, [], [])
  }

  /** One calm tick brings a move closer to its end, or ends DRIVE with the
      planned deduction. */
  lemma CalmTick(w: World, p: Params)
    requires w.fsm.enabled && Committed(w.fsm.state)
    ensures var v := Tick(w, Calmly(w.fsm.timerEnd), p).fsm;
            && v.enabled && -0x8000 <= v.encoder < 0x8000
            && if w.fsm.state == DRIVE then v.remaining == w.fsm.remaining - w.fsm.moveDist
               else Committed(v.state) && Rank(v.state) < Rank(w.fsm.state)
                    && v.remaining == w.fsm.remaining && v.moveDist == w.fsm.moveDist
  {
    var i := Calmly(w.fsm.timerEnd);
    Wrap16Range(w.fsm.encoder + i.edges);
    Wrap16Range(Trunc(-Counts(w.fsm.moveDist, p)));
  }

  /** Every move under way can run to the end of DRIVE. */
  lemma {:induction false} Completes(w: World, p: Params) returns (ins: seq<Input>)
    requires w.fsm.enabled && Committed(w.fsm.state) && -0x8000 <= w.fsm.encoder < 0x8000
    ensures MeteredRun(w, ins, p)
    ensures WorldAfter(w, ins, p).fsm.remaining == w.fsm.remaining - w.fsm.moveDist
    decreases Rank(w.fsm.state)
  {
    var i := Calmly(w.fsm.timerEnd);
    CalmTick(w, p);
    ins := [i];
    assert [i][..0] == [];
    WorldAfterCons(w, i, [], p);
    if w.fsm.state != DRIVE {
      var rest := Completes(Tick(w, i, p), p);
      ins := [i] + rest;
      MeteredCons(w, i, rest, p);
    }
  }

  lemma {:induction false} WorldAfterCons(w: World, i: Input, rest: seq<Input>, p: Params)
    ensures WorldAfter(w, [i] + rest, p) == WorldAfter(Tick(w, i, p), rest, p)
    decreases |rest|
  {
    if rest == [] {
      WorldAfterSnoc(w, [], i, p);
      assert [i] + rest == [] + [i];
    } else {
      var front, last := rest[..|rest| - 1], rest[|rest| - 1];
      WorldAfterCons(w, i, front, p);
      WorldAfterSnoc(w, [i] + front, last, p);
      WorldAfterSnoc(Tick(w, i, p), front, last, p);
      assert rest == front + [last] && [i] + rest == ([i] + front) + [last];
    }
  }

  lemma {:induction false} MeteredCons(w: World, i: Input, rest: seq<Input>, p: Params)
    requires Metered(w.fsm, i, p) && MeteredRun(Tick(w, i, p), rest, p)
    ensures MeteredRun(w, [i] + rest, p)
    ensures WorldAfter(w, [i] + rest, p) == WorldAfter(Tick(w, i, p), rest, p)
  {
    var ins := [i] + rest;
    WorldAfterCons(w, i, rest, p);
    forall j | 0 <= j < |ins|
      ensures Metered(WorldAfter(w, ins[..j], p).fsm, ins[j], p)
    {
      if j > 0 {
        assert ins[..j] == [i] + rest[..j - 1];
        WorldAfterCons(w, i, rest[..j - 1], p);
        assert Metered(WorldAfter(Tick(w, i, p), rest[..j - 1], p).fsm, rest[j - 1], p);
      } else {
        assert ins[..0] == [];
      }
    }
  }

  /** From here on some metered run takes the remaining distance below zero. */
  ghost predicate CanOverdraw(w: World, p: Params) {
    exists ins :: MeteredRun(w, ins, p) && WorldAfter(w, ins, p).fsm.remaining < 0.0
  }

  /** A client that sets the distance during a move lets it go below zero if and
      only if it sets less than the move has planned. */
  lemma {:induction false} SetRemainingIff(w: World, x: real, p: Params)
    requires p.Bounded() && Accountable(w.fsm) && w.fsm.enabled && Committed(w.fsm.state)
    ensures CanOverdraw(w.(fsm := ApplyExternal(w.fsm, SetRemaining(x))), p) <==> x < w.fsm.moveDist
  {
    var v := w.(fsm := ApplyExternal(w.fsm, SetRemaining(x)));
    if x < w.fsm.moveDist {
      var ins := Completes(v, p);
    } else {
      NeverOverdraws(v, p);
    }
  }

  lemma {:induction false} NeverOverdraws(w: World, p: Params)
    requires p.Bounded() && Accountable(w.fsm)
    ensures !CanOverdraw(w, p)
  {
    forall ins | MeteredRun(w, ins, p)
      ensures WorldAfter(w, ins, p).fsm.remaining >= 0.0
    {
      DistanceAccounting(w, ins, p);
    }
  }

  /** The tick drains one overtravel start, which is accepted in IDLE and
      dropped during a move, and nothing aborts the move. */
  ghost predicate Oversteps(w: World, i: Input, p: Params) {
    && w.fsm.enabled && i.cmds == [StartIgnoreOvertravel]
    && NoSetRemaining(i.before) && NoSetRemaining(i.mid)
    && (w.fsm.state == DRIVE ==> w.fsm.encoder + i.edges < 0x8000)
    && (w.fsm.state == IDLE || Committed(w.fsm.state))
    && StartGuard(i, p) == NoError
  }

  /** Such a start plans a whole move, even one that is dropped. */
  lemma OverstepDrained(w: World, i: Input, p: Params)
    requires Oversteps(w, i, p)
    ensures var d := Drained(w.fsm, i, p);
            && d.enabled && Committed(d.state) && d.moveDist == p.driveDist && d.remaining == w.fsm.remaining
            && -0x8000 <= d.encoder < 0x8000
  {
    var b := ApplyExternals(w.fsm, i.before);
    ExternalsKeep(w.fsm, i.before);
    ExternalsKeepDistance(w.fsm, i.before);
    Wrap16Range(b.encoder + i.edges);
    DrainOne(b.(now := i.now, encoder := Wrap16(b.encoder + i.edges)), StartIgnoreOvertravel, i, p);
  }

  lemma {:induction false} OverstepTick(w: World, i: Input, p: Params)
    requires Oversteps(w, i, p)
    ensures var v := Tick(w, i, p).fsm;
            && v.enabled && -0x8000 <= v.encoder < 0x8000
            && if Committed(v.state) then v.moveDist == p.driveDist && v.remaining == w.fsm.remaining
               else v.remaining == w.fsm.remaining - p.driveDist
  {
    OverstepDrained(w, i, p);
    Wrap16Range(Trunc(-Counts(p.driveDist, p)));
    ExternalsKeep(Moved(w.fsm, i, p), i.mid);
    ExternalsKeepDistance(Moved(w.fsm, i, p), i.mid);
  }

  /** An overtravel start, which nothing in the firmware sends, would let the
      distance go below zero if and only if the configured move is longer than
      what is left when it is given; one that is dropped because a move is under
      way does so just the same. */
  lemma {:induction false} OvertravelIff(w: World, i: Input, p: Params)
    requires p.Bounded() && Accountable(w.fsm) && Oversteps(w, i, p)
    ensures CanOverdraw(Tick(w, i, p), p) <==> p.driveDist > w.fsm.remaining
  {
    var v := Tick(w, i, p);
    if p.driveDist > w.fsm.remaining {
      OverstepTick(w, i, p);
      if Committed(v.fsm.state) {
        var ins := Completes(v, p);
      } else {
        assert MeteredRun(v, [], p) && WorldAfter(v, [], p) == v;
      }
    } else {
      ExternalsKeepDistance(w.fsm, i.before);
      AccountableTick(w, i, p);
      NeverOverdraws(v, p);
    }
  }
}
