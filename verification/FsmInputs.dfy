// The tick together with what feeds it: the jack's fuse, which cools and clears
// in UNDO so that every move comes to rest, and the safety debouncer.

module FsmInputs {
  import opened Interlock
  import opened FsmModel
  import opened FsmSafety
  import opened FsmTermination
  import Debounce
  import Efuse

  // ---- The jack's fuse ----------------------------------------------------------------

  /** The jack's fuse sees one sample a tick, of less than m times rated current
      while its relay is off, and the tick sees whether it has tripped. */
  ghost predicate Fused(w: World, t: Trace, p: Params, r: nat -> Efuse.Fuse, s: nat -> Efuse.Sample, q: Efuse.Params, m: real)
  {
    Efuse.Follows(r, s, q) && forall k: nat :: Wired(w, t, p, r, s, m, k)
  }

  ghost predicate Wired(w: World, t: Trace, p: Params, r: nat -> Efuse.Fuse, s: nat -> Efuse.Sample,
          m: real, k: nat)
  {
    && s(k).now == t(k).now
    && (t(k).jackTrip <==> r(k + 1).tripped)
    && (At(w, t, p, k).wire.jack == Off ==> 0.0 <= s(k).iNorm < m)
  }

  lemma UndoTurnsOff(w: World, i: Input, p: Params)
    requires w.fsm.enabled && i.cmds == []
    requires w.fsm.state == UNDO_JACK_START && i.jackTrip
    ensures Tick(w, i, p).wire.jack == Off
  {
    ExternalsKeep(w.fsm, i.before);
    TickKeepsEnabled(w, i, p);
  }

  lemma OffAfter(w: World, t: Trace, p: Params, n: nat, k: nat)
    requires Uncommanded(w, t) && HangsAt(w, t, p, n) && n <= k
    ensures At(w, t, p, k + 1).wire.jack == Off
  {
    HangingStays(w, t, p, n, k);
    Running(w, t, p, k);
    UndoTurnsOff(At(w, t, p, k), t(k), p);
  }

  lemma HangingIsQuiet(w: World, t: Trace, p: Params,
          r: nat -> Efuse.Fuse, s: nat -> Efuse.Sample, q: Efuse.Params, m: real, n: nat)
    requires Uncommanded(w, t) && Fused(w, t, p, r, s, q, m) && HangsAt(w, t, p, n)
    ensures Efuse.QuietFrom(s, n + 1, m)
  {
    forall k: nat | n + 1 <= k
      ensures 0.0 <= s(k).iNorm < m
    {
      OffAfter(w, t, p, n, k - 1);
      assert Wired(w, t, p, r, s, m, k);
    }
  }

  lemma {:induction false} TimePasses(w: World, t: Trace, m: nat, k: nat)
    requires Uncommanded(w, t)
    ensures t(m).now + k <= t(m + k).now
  {
    if k > 0 {
      TimePasses(w, t, m, k - 1);
    }
  }

  /** Quiet from tick n on, the fuse is clear again at some later tick. */
  lemma ClearsWhenQuiet(w: World, t: Trace, p: Params,
          r: nat -> Efuse.Fuse, s: nat -> Efuse.Sample, q: Efuse.Params, m: real, n: nat) returns (k: nat)
    requires Uncommanded(w, t) && Fused(w, t, p, r, s, q, m)
    requires Efuse.CanClear(q, m) && Efuse.QuietFrom(s, n, m)
    ensures n <= k && !t(k).jackTrip
  {
    Efuse.HeatStays(r, s, q, n);
    Efuse.Cools(r, s, q, m, n);
    var cool := n + Efuse.CoolWithin(q, m, r(n).heat);
    var due := r(cool).tripTime + q.tCool;
    var wait: nat := if due >= t(cool).now then due - t(cool).now + 1 else 0;
    k := cool + wait;
    TimePasses(w, t, cool, wait);
    assert Wired(w, t, p, r, s, m, k) && Wired(w, t, p, r, s, m, cool);
    Efuse.CoolClears(r, s, q, m, cool, wait);
  }

  /** The jack's fuse cannot keep the device in UNDO for ever. */
  lemma NeverHangs(w: World, t: Trace, p: Params,
          r: nat -> Efuse.Fuse, s: nat -> Efuse.Sample, q: Efuse.Params, m: real, n: nat)
    requires Uncommanded(w, t) && Fused(w, t, p, r, s, q, m) && Efuse.CanClear(q, m)
    ensures !HangsAt(w, t, p, n)
  {
    if HangsAt(w, t, p, n) {
      HangingIsQuiet(w, t, p, r, s, q, m, n);
      var k := ClearsWhenQuiet(w, t, p, r, s, q, m, n + 1);
    }
  }

  /** Without commands the device comes to rest in IDLE if and only if it does
      not wait for a calibration command. */
  lemma RestsIff(w: World, t: Trace, p: Params,
          r: nat -> Efuse.Fuse, s: nat -> Efuse.Sample, q: Efuse.Params, m: real)
    requires Uncommanded(w, t) && Fused(w, t, p, r, s, q, m) && Efuse.CanClear(q, m)
    ensures (exists n: nat :: At(w, t, p, n).fsm.state == IDLE) <==>
            !(w.fsm.state == CALIBRATE_JACK_DELAY || w.fsm.state == CALIBRATE_DRIVE_DELAY)
  {
    forall n: nat
      ensures !HangsAt(w, t, p, n)
    {
      NeverHangs(w, t, p, r, s, q, m, n);
    }
    ReachesIdleIff(w, t, p);
  }

  // ---- The safety debouncer -------------------------------------------------------------

  /** h is what the debouncer saw at boot and then once a tick; the ticks see its
      verdicts. */
  ghost predicate Debounced(h: seq<Debounce.Check>, ins: seq<Input>, q: Debounce.Limits) {
    && Debounce.History(h) && |h| == |ins| + 1
    && forall n :: 0 <= n < |ins| ==> ins[n].now == h[n + 1].now && ins[n].safe == Debounce.After(h[..n + 2], q).isSafe
  }

  /** The raw input is broken from look k to look n, the break time later. */
  ghost predicate BrokenFor(h: seq<Debounce.Check>, k: nat, n: nat, q: Debounce.Limits) {
    && k < n < |h| && h[n].now - h[k].now >= q.breakUs
    && forall j :: k <= j <= n ==> !h[j].active
  }

  lemma BrokenLasts(h: seq<Debounce.Check>, k: nat, n: nat, q: Debounce.Limits)
    requires Debounce.History(h) && BrokenFor(h, k, n, q)
    ensures Debounce.Lasted(h[..n + 1], q)
  {
    var g := h[..n + 1];
    var s := Debounce.RunStart(g);
    assert s > 0 ==> g[s - 1].active != g[n].active;
    assert s <= k;
    assert s < k ==> h[s].now <= h[k].now;
  }

  /** Once the raw safety input has been broken for SAFETY_BREAK_US, every tick
      of an enabled device ends with DRIVE off until it is made again, whatever
      is queued or asked for. */
  lemma BrokenInputCutsDrive(w: World, h: seq<Debounce.Check>, ins: seq<Input>, p: Params,
          q: Debounce.Limits, k: nat, n: nat)
    requires DriveCut(w) && Debounced(h, ins, q)
    requires n < |ins| && BrokenFor(h, k, n + 1, q)
    ensures WorldAfter(w, ins[..n], p).fsm.enabled ==> WorldAfter(w, ins[..n + 1], p).wire.drive == Off
  {
    var g := h[..n + 2];
    BrokenLasts(h, k, n + 1, q);
    assert Debounce.History(g);
    Debounce.ChangesExactlyWhenLasted(g, q);
    UnsafeTicksCut(w, ins, p, n);
  }
}
