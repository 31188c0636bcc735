// Recovering the head and the tail at boot: a bisection for the first sector
// that is not full, a second one for the tail, and a walk over the entries.

module LogRecovery {
  import opened Flash
  import opened LogModel

  // ---- The two bisections, over the sectors' "full" flags ------------------

  predicate IsSectorFull(f: seq<byte>, k: nat)
    requires (k + 1) * SECTOR_SIZE <= |f|
  {
    f[(k + 1) * SECTOR_SIZE - 1] != ERASED
  }

  function FullFlags(f: seq<byte>, n: nat): (full: seq<bool>)
    requires |f| == n * SECTOR_SIZE
    ensures |full| == n
  {
    seq(n, k requires 0 <= k < n => IsSectorFull(f, k))
  }

  /** On a well-formed partition "full" means padded. */
  lemma FullMeansSealed(f: seq<byte>, ss: seq<Sector>)
    requires Holds(f, ss)
    ensures forall k :: 0 <= k < |ss| ==> FullFlags(f, |ss|)[k] == ss[k].sealed
  {
    forall k | 0 <= k < |ss|
      ensures FullFlags(f, |ss|)[k] == ss[k].sealed
    {
      LastByteTellsSealed(ss[k]);
      SectorByte(f, k, SECTOR_SIZE - 1);
    }
  }

  /** The first bisection, as it runs. */
  function FirstNonFull(full: seq<bool>, l: nat, r: nat): (k: nat)
    requires l <= r < |full|
    ensures l <= k <= r
    decreases r - l
  {
    if l == r then l
    else
      var m := (l + r) / 2;
      if full[m] then FirstNonFull(full, m + 1, r) else FirstNonFull(full, l, m)
  }

  lemma {:induction false} FirstNonFullMonotone(full: seq<bool>, l: nat, r: nat, h: nat)
    requires l <= h <= r < |full|
    requires forall k :: l <= k < h ==> full[k]
    requires forall k :: h <= k < r ==> !full[k]
    ensures FirstNonFull(full, l, r) == h
    decreases r - l
  {
    if l < r {
      var m := (l + r) / 2;
      if full[m] {
        FirstNonFullMonotone(full, m + 1, r, h);
      } else {
        FirstNonFullMonotone(full, l, m, h);
      }
    }
  }

  lemma {:induction false} FirstNonFullAllFull(full: seq<bool>, l: nat, r: nat)
    requires l <= r < |full|
    requires forall k :: l <= k < r ==> full[k]
    ensures FirstNonFull(full, l, r) == r
    decreases r - l
  {
    if l < r {
      FirstNonFullAllFull(full, (l + r) / 2 + 1, r);
    }
  }

  /** d is c halved (rounding down) one or more times. */
  predicate Halving(c: nat, d: nat) {
    d == c / 2 || (c > 1 && Halving(c / 2, d))
  }

  lemma {:induction false} HalvingIsSmaller(c: nat, d: nat)
    requires Halving(c, d)
    ensures d <= c / 2
  {
    if d != c / 2 {
      HalvingIsSmaller(c / 2, d);
    }
  }

  lemma {:induction false} HalvingReachesSmall(c: nat)
    ensures Halving(c, 0)
    ensures c >= 2 ==> Halving(c, 1)
  {
    if c > 1 {
      HalvingReachesSmall(c / 2);
    }
  }

  /** With one non-full sector among full ones, the bisection finds it exactly
      when the distance to the last sector is a halving of the range. */
  lemma {:induction false} FirstNonFullOneHole(full: seq<bool>, l: nat, r: nat, h: nat)
    requires l <= h <= r < |full|
    requires forall k :: l <= k <= r ==> (full[k] <==> k != h)
    ensures FirstNonFull(full, l, r) == if Halving(r - l + 1, r - h) then h else r
    decreases r - l
  {
    if l < r {
      var m := (l + r) / 2;
      assert r - m == (r - l + 1) / 2;
      if m == h {
        FirstNonFullAllFull(full, l, m);
      } else if m < h {
        FirstNonFullOneHole(full, m + 1, r, h);
      } else {
        FirstNonFullAllFull(full, m + 1, r);
        if Halving(r - l + 1, r - h) {
          HalvingIsSmaller(r - l + 1, r - h);
          assert false;
        }
      }
    }
  }

  /** The sector m steps after `head`, cyclically. */
  function Around(head: nat, m: nat, n: nat): (k: nat)
    requires n > 0
    ensures k < n
    ensures head < n && m < n ==> k == if head + m < n then head + m else head + m - n
  {
    ModOnce(head + m, n);
    (head + m) % n
  }

  lemma ModOnce(x: nat, n: nat)
    requires n > 0
    ensures x < n ==> x % n == x
    ensures n <= x < 2 * n ==> x % n == x - n
  {
    if n <= x < 2 * n {
      assert x / n == 1;
    }
  }

  /** The second bisection: the first full sector after the head, cyclically. */
  function FirstFullAfter(full: seq<bool>, head: nat, l: nat, r: nat, found: nat): (k: nat)
    requires 1 <= l && r < |full| && found < |full|
    ensures k < |full|
    decreases r + 1 - l
  {
    if l <= r then
      var m := (l + r) / 2;
      var sector := Around(head, m, |full|);
      if full[sector] then FirstFullAfter(full, head, l, m - 1, sector)
      else FirstFullAfter(full, head, m + 1, r, found)
    else found
  }

  /** One round of the second bisection. */
  lemma FirstFullAfterRound(full: seq<bool>, head: nat, l: nat, r: nat, found: nat, m: nat, sector: nat)
    requires 1 <= l <= r < |full| && found < |full|
    requires m == (l + r) / 2 && sector == Around(head, m, |full|)
    ensures FirstFullAfter(full, head, l, r, found) ==
            if full[sector] then FirstFullAfter(full, head, l, m - 1, sector)
            else FirstFullAfter(full, head, m + 1, r, found)
  {
  }

  lemma {:induction false} FirstFullAfterMonotone(full: seq<bool>, head: nat, l: nat, r: nat, found: nat, t: nat)
    requires 1 <= l <= t <= r + 1 <= |full| && found < |full|
    requires forall m :: l <= m <= r ==> (full[Around(head, m, |full|)] <==> m >= t)
    ensures FirstFullAfter(full, head, l, r, found) ==
            if t <= r then Around(head, t, |full|) else found
    decreases r + 1 - l
  {
    if l <= r {
      var m := (l + r) / 2;
      var sector := Around(head, m, |full|);
      if full[sector] {
        FirstFullAfterMonotone(full, head, l, m - 1, sector, t);
      } else {
        assert m < t;
        FirstFullAfterMonotone(full, head, m + 1, r, found, t);
      }
    }
  }

  // ---- The walk -------------------------------------------------------------

  /** Step over entries and padding up to the first erased byte. */
  function Walk(f: seq<byte>, c: nat, limit: nat): nat
    requires limit <= |f|
    decreases limit - c
  {
    if c >= limit then c
    else if f[c] == ERASED then c
    else if f[c] == 0 then Walk(f, SectorEnd(c), limit)
    else Walk(f, c + f[c] + 1, limit)
  }

  lemma {:induction false} WalkSector(f: seq<byte>, ss: seq<Sector>, k: nat, i: nat, limit: nat)
    requires Holds(f, ss) && k < |ss| && i <= |ss[k].entries|
    requires (k + 1) * SECTOR_SIZE <= limit <= |f|
    ensures Walk(f, k * SECTOR_SIZE + Offset(ss[k].entries, i), limit) ==
            if ss[k].sealed then Walk(f, (k + 1) * SECTOR_SIZE, limit)
            else k * SECTOR_SIZE + Used(ss[k])
    decreases |ss[k].entries| - i
  {
    var es := ss[k].entries;
    var c := k * SECTOR_SIZE + Offset(es, i);
    if i == |es| {
      OffsetEnds(es);
      FillerOnFlash(f, ss, k);
      SectorOfOffset(k, Used(ss[k]));
    } else {
      EntryOnFlash(f, ss, k, i);
      EncodedParts(f, c, es[i]);
      WalkSector(f, ss, k, i + 1, limit);
    }
  }

  // ---- Head and tail --------------------------------------------------------

  function HeadSector(f: seq<byte>, n: nat): (k: nat)
    requires |f| == n * SECTOR_SIZE && n > 0
    ensures k < n
  {
    FirstNonFull(FullFlags(f, n), 0, n - 1)
  }

  /** The walk starts one sector before the head's, when there is one. */
  function WalkStart(k: nat): nat {
    if k > 0 then (k - 1) * SECTOR_SIZE else 0
  }

  function RecoveredHead(f: seq<byte>, n: nat): nat
    requires |f| == n * SECTOR_SIZE && n > 0
  {
    var k := HeadSector(f, n);
    Walk(f, WalkStart(k), (k + 1) * SECTOR_SIZE)
  }

  function RecoveredTail(f: seq<byte>, n: nat): nat
    requires |f| == n * SECTOR_SIZE && n > 0
  {
    FirstFullAfter(FullFlags(f, n), HeadSector(f, n), 1, n - 1, 0) * SECTOR_SIZE
  }

  /** Walking from just before an open sector whose predecessor is sealed. */
  lemma WalkToOpen(f: seq<byte>, ss: seq<Sector>, k: nat)
    requires Holds(f, ss) && k < |ss| && !ss[k].sealed && (k > 0 ==> ss[k - 1].sealed)
    ensures (k + 1) * SECTOR_SIZE <= |f|
    ensures Walk(f, WalkStart(k), (k + 1) * SECTOR_SIZE) == k * SECTOR_SIZE + Used(ss[k])
  {
    assert (k + 1) * SECTOR_SIZE <= |f|;
    OffsetEnds(ss[k].entries);
    WalkSector(f, ss, k, 0, (k + 1) * SECTOR_SIZE);
    if k > 0 {
      OffsetEnds(ss[k - 1].entries);
      WalkSector(f, ss, k - 1, 0, (k + 1) * SECTOR_SIZE);
    }
  }

  lemma HeadSectorFirstLap(f: seq<byte>, l: Log)
    requires LogOk(l) && Holds(f, l.sectors) && !l.wrapped
    ensures HeadSector(f, |l.sectors|) == l.at
  {
    FullMeansSealed(f, l.sectors);
    FirstNonFullMonotone(FullFlags(f, |l.sectors|), 0, |l.sectors| - 1, l.at);
  }

  lemma HeadSectorWrapped(f: seq<byte>, l: Log)
    requires LogOk(l) && Holds(f, l.sectors) && l.wrapped
    ensures var n := |l.sectors|;
            HeadSector(f, n) == if Halving(n, n - 1 - l.at) then l.at else n - 1
  {
    FullMeansSealed(f, l.sectors);
    FirstNonFullOneHole(FullFlags(f, |l.sectors|), 0, |l.sectors| - 1, l.at);
  }

  /** When the boot scan can find the head: the first lap, or a head sector
      whose distance to the end of the partition is a halving of its size. */
  predicate HeadRecoverable(l: Log)
    requires LogOk(l)
  {
    !l.wrapped || Halving(|l.sectors|, |l.sectors| - 1 - l.at)
  }

  /** A sealed sector is walked over in one go. */
  lemma {:induction false} WalkWhole(f: seq<byte>, ss: seq<Sector>, k: nat)
    requires Holds(f, ss) && k < |ss| && ss[k].sealed
    ensures Walk(f, k * SECTOR_SIZE, |f|) == Walk(f, (k + 1) * SECTOR_SIZE, |f|)
  {
    assert (k + 1) * SECTOR_SIZE <= |f|;
    OffsetEnds(ss[k].entries);
    WalkSector(f, ss, k, 0, |f|);
  }

  lemma {:induction false} WalkOffTheEnd(f: seq<byte>, ss: seq<Sector>)
    requires Holds(f, ss) && |ss| >= 2 && ss[|ss| - 1].sealed && ss[|ss| - 2].sealed
    ensures Walk(f, WalkStart(|ss| - 1), |f|) == |f|
  {
    var n := |ss|;
    WalkWhole(f, ss, n - 2);
    WalkWhole(f, ss, n - 1);
    assert Walk(f, |f|, |f|) == |f|;
  }

  /** When the bisection misses, the walk runs off the end of the partition. */
  lemma WalkPastEnd(f: seq<byte>, l: Log)
    requires LogOk(l) && Holds(f, l.sectors) && !HeadRecoverable(l)
    ensures RecoveredHead(f, |l.sectors|) == |l.sectors| * SECTOR_SIZE
  {
    HeadSectorWrapped(f, l);
    HalvingReachesSmall(|l.sectors|);
    WalkOffTheEnd(f, l.sectors);
  }

  /** The recovered head, for every reachable log: exact, or the end of the
      partition when the bisection misses the head's sector. */
  lemma RecoveredHeadIs(f: seq<byte>, l: Log)
    requires LogOk(l) && Holds(f, l.sectors)
    ensures RecoveredHead(f, |l.sectors|) ==
            if HeadRecoverable(l) then HeadOffset(l) else |l.sectors| * SECTOR_SIZE
  {
    var n := |l.sectors|;
    if HeadRecoverable(l) {
      if l.wrapped { HeadSectorWrapped(f, l); } else { HeadSectorFirstLap(f, l); }
      WalkToOpen(f, l.sectors, l.at);
    } else {
      WalkPastEnd(f, l);
    }
  }

  /** The head comes back exactly if and only if HeadRecoverable. */
  lemma HeadExactIff(f: seq<byte>, l: Log)
    requires LogOk(l) && Holds(f, l.sectors)
    ensures RecoveredHead(f, |l.sectors|) == HeadOffset(l) <==> HeadRecoverable(l)
  {
    RecoveredHeadIs(f, l);
    assert HeadOffset(l) < |l.sectors| * SECTOR_SIZE;
  }

  lemma RecoveredTailFirstLap(f: seq<byte>, l: Log)
    requires LogOk(l) && Holds(f, l.sectors) && !l.wrapped
    ensures RecoveredTail(f, |l.sectors|) == 0
  {
    var n := |l.sectors|;
    FullMeansSealed(f, l.sectors);
    HeadSectorFirstLap(f, l);
    FirstFullAfterMonotone(FullFlags(f, n), l.at, 1, n - 1, 0, n - l.at);
  }

  /** With every other sector full, the search stops at the very next one. */
  lemma NextIsFull(full: seq<bool>, at: nat)
    requires at < |full| && forall k :: 0 <= k < |full| && k != at ==> full[k]
    ensures FirstFullAfter(full, at, 1, |full| - 1, 0) == if at + 1 == |full| then 0 else at + 1
  {
    FirstFullAfterMonotone(full, at, 1, |full| - 1, 0, 1);
  }

  lemma RecoveredTailWrapped(f: seq<byte>, l: Log)
    requires LogOk(l) && Holds(f, l.sectors) && l.wrapped && HeadRecoverable(l)
    ensures RecoveredTail(f, |l.sectors|) == NextSector(l) * SECTOR_SIZE
  {
    FullMeansSealed(f, l.sectors);
    HeadSectorWrapped(f, l);
    NextIsFull(FullFlags(f, |l.sectors|), l.at);
  }

  /** The log that stands after a boot scan, when the head is recoverable. */
  function Rebooted(l: Log): (r: Log)
    requires LogOk(l)
    ensures LogOk(r)
  {
    l.(tailSector := if l.wrapped then NextSector(l) else 0)
  }

  /** What the boot scan computes, in terms of the log that was written. */
  lemma RecoveryIs(f: seq<byte>, l: Log)
    requires LogOk(l) && Holds(f, l.sectors) && HeadRecoverable(l)
    ensures RecoveredHead(f, |l.sectors|) == HeadOffset(Rebooted(l))
    ensures RecoveredTail(f, |l.sectors|) == TailOffset(Rebooted(l))
  {
    RecoveredHeadIs(f, l);
    if l.wrapped { RecoveredTailWrapped(f, l); } else { RecoveredTailFirstLap(f, l); }
  }
}
