// The asymmetric debouncer of the safety input: slow to make, fast to break.

module Debounce {

  // The start time of the level being timed; 0 for the other one.
  datatype Deb = Deb(isSafe: bool, lowStart: nat, highStart: nat)

  // One look at the input: active means the line is low.
  datatype Check = Check(active: bool, now: nat)

  datatype Limits = Limits(breakUs: nat, makeUs: nat)

  function Init(c: Check): Deb {
    if c.active then Deb(true, c.now, 0) else Deb(true, 0, c.now)
  }

  function Step(d: Deb, c: Check, p: Limits): Deb {
    if c.active then
      if d.lowStart == 0 then Deb(d.isSafe, c.now, 0)
      else if !d.isSafe && c.now - d.lowStart >= p.makeUs then d.(isSafe := true)
      else d
    else
      if d.highStart == 0 then Deb(d.isSafe, 0, c.now)
      else if d.isSafe && c.now - d.highStart >= p.breakUs then d.(isSafe := false)
      else d
  }

  class SafetyInput {
    var isSafe: bool
    var safetyLowStartTime: nat
    var safetyHighStartTime: nat

    ghost function Contents(): Deb
      reads this
    {
      Deb(isSafe, safetyLowStartTime, safetyHighStartTime)
    }

    constructor (c: Check)
      ensures Contents() == Init(c)
    {
      isSafe := true;
      if c.active {
        safetyLowStartTime := c.now;
        safetyHighStartTime := 0;
      } else {
        safetyLowStartTime := 0;
        safetyHighStartTime := c.now;
      }
    }

    /** One check; `cut` says that every relay is to be switched off. */
    method SensorsCheck(c: Check, p: Limits) returns (cut: bool)
      modifies this
      ensures Contents() == Step(old(Contents()), c, p)
      ensures cut <==> old(isSafe) && !isSafe
    {
      cut := false;
      if c.active {
        if safetyLowStartTime == 0 {
          safetyLowStartTime := c.now;
          safetyHighStartTime := 0;
        } else if !isSafe && c.now - safetyLowStartTime >= p.makeUs {
          isSafe := true;
        }
      } else {
        if safetyHighStartTime == 0 {
          safetyHighStartTime := c.now;
          safetyLowStartTime := 0;
        } else if isSafe && c.now - safetyHighStartTime >= p.breakUs {
          isSafe := false;
          cut := true;
        }
      }
    }
  }

  // ---- What the debouncer means, in terms of the whole history -----------------------

  /** The first check is the one at initialisation; times are not zero and do
      not go back. */
  ghost predicate History(h: seq<Check>) {
    && h != []
    && (forall i :: 0 <= i < |h| ==> h[i].now > 0)
    && (forall i, j :: 0 <= i < j < |h| ==> h[i].now <= h[j].now)
  }

  function After(h: seq<Check>, p: Limits): Deb
    requires h != []
    decreases |h|
  {
    if |h| == 1 then Init(h[0]) else Step(After(h[..|h| - 1], p), h[|h| - 1], p)
  }

  /** Where the uninterrupted run of the latest level began. */
  function RunStart(h: seq<Check>): (s: nat)
    requires h != []
    ensures s < |h|
    ensures forall i :: s <= i < |h| ==> h[i].active == h[|h| - 1].active
    ensures s > 0 ==> h[s - 1].active != h[|h| - 1].active
    decreases |h|
  {
    if |h| == 1 then 0
    else if h[|h| - 2].active != h[|h| - 1].active then |h| - 1
    else RunStart(h[..|h| - 1])
  }

  /** The latest level has lasted: it was seen again, at least the limit after
      it was first seen. */
  predicate Lasted(h: seq<Check>, p: Limits)
    requires h != []
  {
    var s := RunStart(h);
    && s < |h| - 1
    && h[|h| - 1].now - h[s].now >= if h[|h| - 1].active then p.makeUs else p.breakUs
  }

  /** The reference: a level that has lasted decides; otherwise what was
      decided before its run still stands, and at boot that is "safe". */
  predicate SafeByHistory(h: seq<Check>, p: Limits)
    requires h != []
    decreases |h|
  {
    if Lasted(h, p) then h[|h| - 1].active
    else if RunStart(h) == 0 then true
    else SafeByHistory(h[..RunStart(h)], p)
  }

  lemma RunStartExtends(h: seq<Check>)
    requires |h| > 1 && h[|h| - 2].active == h[|h| - 1].active
    ensures RunStart(h) == RunStart(h[..|h| - 1])
    ensures h[..|h| - 1][..RunStart(h)] == h[..RunStart(h)]
  {
  }

  /** The debouncer computes the reference, and times exactly the run of the
      latest level: one of its two start times is that run's first check, the
      other is 0. */
  lemma {:induction false} DebouncesByHistory(h: seq<Check>, p: Limits)
    requires History(h)
    ensures var d := After(h, p);
            var first := h[RunStart(h)].now;
            && d.isSafe == SafeByHistory(h, p)
            && d == if h[|h| - 1].active then Deb(d.isSafe, first, 0) else Deb(d.isSafe, 0, first)
    decreases |h|
  {
    if |h| > 1 {
      var g := h[..|h| - 1];
      DebouncesByHistory(g, p);
      assert g[|g| - 1] == h[|h| - 2];
      if h[|h| - 2].active == h[|h| - 1].active {
        RunStartExtends(h);
      }
    }
  }

  /** The verdict changes at a check only if every check since one at least
      the limit earlier saw the same level, and then to that level; and once a
      level has lasted that long the verdict is that level. */
  lemma ChangesExactlyWhenLasted(h: seq<Check>, p: Limits)
    requires History(h) && |h| > 1
    ensures After(h, p).isSafe != After(h[..|h| - 1], p).isSafe ==>
              Lasted(h, p) && After(h, p).isSafe == h[|h| - 1].active
    ensures Lasted(h, p) ==> After(h, p).isSafe == h[|h| - 1].active
  {
    var g := h[..|h| - 1];
    DebouncesByHistory(h, p);
    DebouncesByHistory(g, p);
    if !Lasted(h, p) {
      if h[|h| - 2].active == h[|h| - 1].active {
        RunStartExtends(h);
      } else {
        assert RunStart(h) == |h| - 1;
      }
    }
  }
}
