// Runs in which the log falls short, and exactly when: a head or a tail that
// the boot scan misplaces, a read that does not end, a half-finished padding.

module LogFailures {
  import opened Flash
  import opened LogHistory
  import opened LogModel
  import opened LogParser
  import opened LogReader
  import opened LogRecovery
  import opened LogRuns
  import opened LogStore
  import opened LogTheorems

  // ---- Runs of writes that go round the partition ---------------------------------

  /** A time-set entry, as the firmware emits it. */
  const FILL: Entry := Entry(Fill(0, 8), TYPE_TIME_SET)

  ghost predicate OnlyWrites(evs: seq<Event>) {
    forall i :: 0 <= i < |evs| ==> evs[i].Written? && Emitted(evs[i].entry)
  }

  /** The run evs takes l to r. */
  ghost predicate Leads(l: Log, evs: seq<Event>, r: Log)
    requires LogOk(l)
  {
    PossibleRun(l, evs) && Run(l, evs) == r
  }

  lemma LeadsCons(l: Log, ev: Event, evs: seq<Event>, r: Log)
    requires LogOk(l) && Possible(l, ev) && Leads(Apply(l, ev), evs, r)
    ensures Leads(l, [ev] + evs, r)
  {
    assert ([ev] + evs)[1..] == evs;
  }

  lemma LeadsRest(l: Log, evs: seq<Event>, r: Log)
    requires LogOk(l) && evs != [] && Leads(l, evs, r)
    ensures Possible(l, evs[0]) && Leads(Apply(l, evs[0]), evs[1..], r)
  {
  }

  /** One run after another. */
  lemma {:induction false} LeadsOn(l: Log, a: seq<Event>, mid: Log, b: seq<Event>, r: Log)
    requires LogOk(l) && LogOk(mid) && Leads(l, a, mid) && Leads(mid, b, r)
    ensures Leads(l, a + b, r)
    decreases a
  {
    if a == [] {
      assert a + b == b;
    } else {
      var ab := a[1..] + b;
      LeadsRest(l, a, mid);
      LeadsOn(Apply(l, a[0]), a[1..], mid, b, r);
      LeadsCons(l, a[0], ab, r);
      assert a + b == [a[0]] + ab;
    }
  }

  lemma FillOnce(l: Log)
    requires LogOk(l)
    ensures Possible(l, Written(FILL))
    ensures var r := Apply(l, Written(FILL));
            && (l.tailSector == 0 ==> r.tailSector == 0)
            && if MustAdvance(l, FILL.Size()) then
                 r.at == NextSector(l) && r.wrapped == (l.wrapped || l.at + 1 == |l.sectors|)
               else
                 && r.at == l.at && r.wrapped == l.wrapped
                 && Used(r.sectors[r.at]) > Used(l.sectors[l.at])
  {
    if !MustAdvance(l, FILL.Size()) {
      EncodeAllSnoc(l.sectors[l.at].entries, FILL);
    }
  }

  /** Writes that take the head into the next sector. */
  lemma {:induction false} IntoNextSector(l: Log) returns (evs: seq<Event>, r: Log)
    requires LogOk(l)
    ensures Leads(l, evs, r) && OnlyWrites(evs) && LogOk(r) && |r.sectors| == |l.sectors|
    ensures r.at == NextSector(l) && r.wrapped == (l.wrapped || l.at + 1 == |l.sectors|)
    ensures l.tailSector == 0 ==> r.tailSector == 0
    decreases SECTOR_SIZE - Used(l.sectors[l.at])
  {
    var m := Apply(l, Written(FILL));
    FillOnce(l);
    var rest := [];
    r := m;
    if !MustAdvance(l, FILL.Size()) {
      rest, r := IntoNextSector(m);
    }
    evs := [Written(FILL)] + rest;
    LeadsCons(l, Written(FILL), rest, r);
  }

  /** Writes that take the head on to sector m. */
  lemma {:induction false} IntoSector(l: Log, m: nat) returns (evs: seq<Event>, r: Log)
    requires LogOk(l) && l.at <= m < |l.sectors|
    ensures Leads(l, evs, r) && OnlyWrites(evs) && LogOk(r) && |r.sectors| == |l.sectors|
    ensures r.at == m && r.wrapped == l.wrapped && (l.tailSector == 0 ==> r.tailSector == 0)
    decreases m - l.at
  {
    evs, r := [], l;
    if l.at < m {
      var first, mid := IntoNextSector(l);
      var rest;
      rest, r := IntoSector(mid, m);
      LeadsOn(l, first, mid, rest, r);
      evs := first + rest;
    }
  }

  /** Writes that take the head once round the partition, into sector 0. */
  lemma OnceRound(n: nat) returns (evs: seq<Event>, r: Log)
    requires n > 0
    ensures Leads(FreshLog(n), evs, r) && OnlyWrites(evs) && LogOk(r) && |r.sectors| == n
    ensures r.at == 0 && r.wrapped && r.tailSector == 0
  {
    var lap, mid := IntoSector(FreshLog(n), n - 1);
    var last;
    last, r := IntoNextSector(mid);
    LeadsOn(FreshLog(n), lap, mid, last, r);
    evs := lap + last;
  }

  lemma NotAHalving(n: nat)
    requires n >= 3
    ensures !Halving(n, n - 1)
  {
    if Halving(n, n - 1) {
      HalvingIsSmaller(n, n - 1);
    }
  }

  /** On every partition of three or more sectors a run of nothing but writes
      ends in a log whose head the boot scan puts at the partition's end. */
  lemma {:induction false} WritesLoseTheHead(n: nat) returns (evs: seq<Event>, l: Log)
    requires n >= 3
    ensures Leads(FreshLog(n), evs, l) && OnlyWrites(evs) && LogOk(l) && |l.sectors| == n
    ensures !HeadRecoverable(l) && HeadOffset(l) < n * SECTOR_SIZE
    ensures forall f :: Holds(f, l.sectors) ==> RecoveredHead(f, n) == n * SECTOR_SIZE
  {
    evs, l := OnceRound(n);
    NotAHalving(n);
    forall f | Holds(f, l.sectors)
      ensures RecoveredHead(f, n) == n * SECTOR_SIZE
    {
      RecoveredHeadIs(f, l);
    }
  }

  lemma LeadsReboot(l: Log)
    requires LogOk(l) && HeadRecoverable(l)
    ensures Leads(l, [Reboot], Rebooted(l))
  {
    assert [Reboot][1..] == [];
    assert Leads(Apply(l, Reboot), [], Rebooted(l));
  }

  /** On every partition of two or more sectors a run of writes and one reboot
      ends with the tail ahead of the head, and reading from a reset then never
      reports the end. */
  lemma {:induction false} RebootLosesTheEnd(n: nat) returns (evs: seq<Event>, l: Log)
    requires n >= 2
    ensures Leads(FreshLog(n), evs + [Reboot], l) && OnlyWrites(evs) && LogOk(l)
    ensures l.tailSector > l.at
    ensures forall f, hops, j: nat :: Holds(f, l.sectors) && hops >= n ==> !Exhausted(f, l, hops, j)
  {
    var round, zero := OnceRound(n);
    var on, w := IntoSector(zero, n - 2);
    LeadsOn(FreshLog(n), round, zero, on, w);
    evs, l := round + on, Rebooted(w);
    HalvingReachesSmall(n);
    LeadsReboot(w);
    LeadsOn(FreshLog(n), evs, w, [Reboot], l);
    forall f, hops, j: nat | Holds(f, l.sectors) && hops >= n
      ensures !Exhausted(f, l, hops, j)
    {
      ReadingEndsIff(f, l, hops);
    }
  }

  /** Writes that take the head into the tail's sector: the last of them is all
      that stays visible, with everything from before still on flash. */
  lemma {:induction false} IntoTailSector(l: Log) returns (evs: seq<Event>, r: Log)
    requires LogOk(l) && l.at + 1 == l.tailSector < |l.sectors|
    ensures Leads(l, evs, r) && OnlyWrites(evs) && LogOk(r)
    ensures Visible(r) == [FILL] && IsSuffix(Visible(r), Retained(r)) && |Retained(r)| > 1
    decreases SECTOR_SIZE - Used(l.sectors[l.at])
  {
    var m := Apply(l, Written(FILL));
    FillOnce(l);
    var rest := [];
    r := m;
    if MustAdvance(l, FILL.Size()) {
      StepIntoTail(l);
    } else {
      rest, r := IntoTailSector(m);
    }
    evs := [Written(FILL)] + rest;
  }

  lemma StepIntoTail(l: Log)
    requires LogOk(l) && l.at + 1 == l.tailSector < |l.sectors| && MustAdvance(l, FILL.Size())
    ensures var r := Write(l, FILL);
            Visible(r) == [FILL] && IsSuffix(Visible(r), Retained(r)) && |Retained(r)| > 1
  {
    var a := Advance(l);
    EnteringTailHidesAll(l);
    StepRetains(l);
    AppendShows(a, FILL);
    AppendRetains(a, FILL);
    VisibleIsSuffix(Append(a, FILL));
  }

  lemma StepRetains(l: Log)
    requires LogOk(l) && l.at + 1 < |l.sectors| && MustAdvance(l, FILL.Size())
    ensures Retained(Advance(l)) != []
  {
    AdvanceWithinLap(l);
    FullSectorHasEntries(l);
  }

  lemma FullSectorHasEntries(l: Log)
    requires LogOk(l) && MustAdvance(l, FILL.Size())
    ensures CurrentLap(l) != []
  {
    assert l.sectors[..l.at + 1] == l.sectors[..l.at] + [l.sectors[l.at]];
    FlattenSnoc(l.sectors[..l.at], l.sectors[l.at]);
    assert l.sectors[l.at].entries != [];
  }

  /** On every partition of two or more sectors a run of writes with one reboot
      among them ends with everything but the last entry hidden from readers
      and downloads, although it is still on flash. */
  lemma {:induction false} RebootHidesTheRest(n: nat) returns (evs: seq<Event>, more: seq<Event>, r: Log)
    requires n >= 2
    ensures Leads(FreshLog(n), evs + [Reboot] + more, r) && OnlyWrites(evs) && OnlyWrites(more) && LogOk(r)
    ensures Visible(r) == [FILL] && IsSuffix(Visible(r), Retained(r)) && |Retained(r)| > 1
  {
    var round, zero := OnceRound(n);
    var on, w := IntoSector(zero, n - 2);
    LeadsOn(FreshLog(n), round, zero, on, w);
    evs := round + on;
    HalvingReachesSmall(n);
    LeadsOn(FreshLog(n), evs, w, [Reboot], Rebooted(w));
    more, r := IntoTailSector(Rebooted(w));
    LeadsOn(FreshLog(n), evs + [Reboot], Rebooted(w), more, r);
  }

  // ---- Power lost inside the zero padding ------------------------------------------

  /** The padding between the head and the end of its sector. */
  function Gap(l: Log): nat
    requires LogOk(l)
  {
    SECTOR_SIZE - Used(l.sectors[l.at])
  }

  /** The cells after z of the padding bytes. */
  function Padded(f: seq<byte>, l: Log, z: nat): seq<byte>
    requires LogOk(l) && Holds(f, l.sectors) && z <= Gap(l)
  {
    HeadIsErased(f, l);
    assert (l.at + 1) * SECTOR_SIZE <= |f|;
    Splice(f, HeadOffset(l), Fill(0, z))
  }

  /** The same, and later the content of the open sector s in the next sector. */
  function PaddedThen(f: seq<byte>, l: Log, z: nat, s: Sector): seq<byte>
    requires LogOk(l) && Holds(f, l.sectors) && z <= Gap(l) && l.at + 1 < |l.sectors| && SectorOk(s)
  {
    assert (l.at + 2) * SECTOR_SIZE <= |f|;
    Splice(Padded(f, l, z), (l.at + 1) * SECTOR_SIZE, Image(s))
  }

  /** All of the padding: the sector is sealed, and the head comes back. */
  lemma {:induction false} PaddedInFull(f: seq<byte>, l: Log, s: Sector)
    requires LogOk(l) && Holds(f, l.sectors) && !l.wrapped && l.at + 1 < |l.sectors|
    requires SectorOk(s) && !s.sealed
    ensures RecoveredHead(PaddedThen(f, l, Gap(l), s), |l.sectors|) == (l.at + 1) * SECTOR_SIZE + Used(s)
  {
    var g := SealHead(f, l);
    SectorOfOffset(l.at, Used(l.sectors[l.at]));
    assert g == Padded(f, l, Gap(l));
    var r := EnterWith(g, l, s);
    RecoveredHeadIs(PaddedThen(f, l, Gap(l), s), r);
  }

  lemma EnterWith(g: seq<byte>, l: Log, s: Sector) returns (r: Log)
    requires LogOk(l) && !l.wrapped && l.at + 1 < |l.sectors| && Holds(g, Sealed(l))
    requires SectorOk(s) && !s.sealed
    ensures (l.at + 2) * SECTOR_SIZE <= |g|
    ensures LogOk(r) && !r.wrapped && |r.sectors| == |l.sectors|
    ensures Holds(Splice(g, (l.at + 1) * SECTOR_SIZE, Image(s)), r.sectors)
    ensures HeadOffset(r) == (l.at + 1) * SECTOR_SIZE + Used(s)
  {
    r := Entered(l, s);
    ReplaceSector(g, Sealed(l), l.at + 1, s);
  }

  /** The log that has moved on to its next sector and holds s there. */
  function Entered(l: Log, s: Sector): (r: Log)
    requires LogOk(l) && !l.wrapped && l.at + 1 < |l.sectors| && SectorOk(s) && !s.sealed
    ensures LogOk(r) && HeadOffset(r) == (l.at + 1) * SECTOR_SIZE + Used(s)
  {
    Log(Sealed(l)[l.at + 1 := s], l.at + 1, false, 0)
  }

  lemma ReplaceSector(f: seq<byte>, ss: seq<Sector>, k: nat, s: Sector)
    requires Holds(f, ss) && k < |ss| && SectorOk(s)
    ensures (k + 1) * SECTOR_SIZE <= |f|
    ensures Holds(Splice(f, k * SECTOR_SIZE, Image(s)), ss[k := s])
  {
    assert (k + 1) * SECTOR_SIZE <= |f|;
    SpliceAll(Image(ss[k]), Image(s));
    HoldsAfterSplice(f, ss, k, 0, Image(s), s);
  }

  lemma SpliceAll(a: seq<byte>, b: seq<byte>)
    requires |a| == |b|
    ensures Splice(a, 0, b) == b
  {
  }

  /** Replacing an empty sector by an open one changes no flag. */
  lemma FlagsAfterSector(f: seq<byte>, n: nat, k: nat, s: Sector)
    requires |f| == n * SECTOR_SIZE && k < n && SectorOk(s) && !s.sealed && !IsSectorFull(f, k)
    ensures (k + 1) * SECTOR_SIZE <= |f|
    ensures FullFlags(Splice(f, k * SECTOR_SIZE, Image(s)), n) == FullFlags(f, n)
  {
    assert (k + 1) * SECTOR_SIZE <= |f|;
    var g := Splice(f, k * SECTOR_SIZE, Image(s));
    LastByteTellsSealed(s);
    SpliceIsLocal(f, k, 0, Image(s));
    SpliceAll(SectorAt(f, k), Image(s));
    forall j | 0 <= j < n
      ensures FullFlags(g, n)[j] == FullFlags(f, n)[j]
    {
      assert (j + 1) * SECTOR_SIZE <= |f|;
      SectorByte(f, j, SECTOR_SIZE - 1);
      SectorByte(g, j, SECTOR_SIZE - 1);
    }
  }

  /** Less than all of the padding changes no flag. */
  lemma FlagsWhilePadding(f: seq<byte>, l: Log, z: nat, s: Sector)
    requires LogOk(l) && Holds(f, l.sectors) && !l.wrapped && l.at + 1 < |l.sectors|
    requires z < Gap(l) && SectorOk(s) && !s.sealed
    ensures FullFlags(PaddedThen(f, l, z, s), |l.sectors|) == FullFlags(f, |l.sectors|)
  {
    var n := |l.sectors|;
    var g := Padded(f, l, z);
    FlagsAfterSplice(f, n, l.at, Used(l.sectors[l.at]), Fill(0, z));
    FullMeansSealed(f, l.sectors);
    assert FullFlags(g, n)[l.at + 1] == FullFlags(f, n)[l.at + 1] == false;
    FlagsAfterSector(g, n, l.at + 1, s);
  }

  lemma BytesWhilePadding(f: seq<byte>, l: Log, z: nat, s: Sector)
    requires LogOk(l) && Holds(f, l.sectors) && l.at + 1 < |l.sectors| && z < Gap(l) && SectorOk(s)
    ensures var h := PaddedThen(f, l, z, s);
            && |h| == |f| && HeadOffset(l) < |h|
            && h[..HeadOffset(l)] == f[..HeadOffset(l)]
            && h[HeadOffset(l)] == if z == 0 then ERASED else 0
  {
    HeadIsErased(f, l);
  }

  /** Some of the padding: the walk runs over it to the next sector's start. */
  lemma {:induction false} PaddedInPart(f: seq<byte>, l: Log, z: nat, s: Sector)
    requires LogOk(l) && Holds(f, l.sectors) && !l.wrapped && l.at + 1 < |l.sectors|
    requires 0 < z < Gap(l) && SectorOk(s) && !s.sealed
    ensures RecoveredHead(PaddedThen(f, l, z, s), |l.sectors|) == (l.at + 1) * SECTOR_SIZE
  {
    FlagsWhilePadding(f, l, z, s);
    BytesWhilePadding(f, l, z, s);
    HalfPadded(f, l, PaddedThen(f, l, z, s));
  }

  /** None of the padding: the walk stops at the old head. */
  lemma {:induction false} NotPadded(f: seq<byte>, l: Log, s: Sector)
    requires LogOk(l) && Holds(f, l.sectors) && !l.wrapped && l.at + 1 < |l.sectors|
    requires SectorOk(s) && !s.sealed
    ensures RecoveredHead(PaddedThen(f, l, 0, s), |l.sectors|) == HeadOffset(l)
  {
    var h := PaddedThen(f, l, 0, s);
    FlagsWhilePadding(f, l, 0, s);
    BytesWhilePadding(f, l, 0, s);
    SameHeadSector(f, l, h);
    WalkToOpen(f, l.sectors, l.at);
    WalkAgrees(f, h, WalkStart(l.at), (l.at + 1) * SECTOR_SIZE, HeadOffset(l));
  }

  /** Power fails after z of the padding bytes, in the first lap, and later the
      next sector holds what s holds.  Then every boot recovers the head behind
      that if and only if the padding was finished; if it was begun and not
      finished, the head is put at the start of what was written there, and the
      next write programs bytes that are not erased. */
  lemma {:induction false} PaddingCutIff(f: seq<byte>, l: Log, z: nat, s: Sector)
    requires LogOk(l) && Holds(f, l.sectors) && !l.wrapped && l.at + 1 < |l.sectors|
    requires z <= Gap(l) && SectorOk(s) && !s.sealed && s.entries != []
    ensures var next := (l.at + 1) * SECTOR_SIZE;
            var h := PaddedThen(f, l, z, s);
            var head := RecoveredHead(h, |l.sectors|);
            && (head == next + Used(s) <==> z == Gap(l))
            && (z == 0 ==> head == HeadOffset(l))
            && (0 < z < Gap(l) ==> head == next < |h| && !AllErased(h, head, head + 1))
  {
    if z == Gap(l) {
      PaddedInFull(f, l, s);
    } else if z == 0 {
      NotPadded(f, l, s);
    } else {
      PaddedInPart(f, l, z, s);
      FirstByteOf(f, l, z, s);
    }
    EntriesTakeRoom(s);
  }

  /** After a cut inside the padding the next boot puts the head at the start of
      the following sector, and so does the boot after an entry was written
      there: on top of it. */
  lemma PaddingCutHidesEntries(f: seq<byte>, l: Log, z: nat, e: Entry)
    requires LogOk(l) && Holds(f, l.sectors) && !l.wrapped && l.at + 1 < |l.sectors|
    requires e.Fits() && 0 < z < Gap(l)
    ensures SectorOk(EMPTY) && SectorOk(Sector([e], false))
    ensures var next := (l.at + 1) * SECTOR_SIZE;
            && RecoveredHead(PaddedThen(f, l, z, EMPTY), |l.sectors|) == next
            && RecoveredHead(PaddedThen(f, l, z, Sector([e], false)), |l.sectors|) == next
  {
    EmptyImage();
    EncodeAllSnoc([], e);
    assert [] + [e] == [e];
    PaddedInPart(f, l, z, EMPTY);
    PaddedInPart(f, l, z, Sector([e], false));
  }

  lemma EntriesTakeRoom(s: Sector)
    requires SectorOk(s) && s.entries != []
    ensures Used(s) > 0 && Image(s)[0] != ERASED
  {
    FirstByteTellsErased(s);
  }

  lemma FirstByteOf(f: seq<byte>, l: Log, z: nat, s: Sector)
    requires LogOk(l) && Holds(f, l.sectors) && z <= Gap(l) && l.at + 1 < |l.sectors|
    requires SectorOk(s) && s.entries != []
    ensures var h := PaddedThen(f, l, z, s);
            (l.at + 1) * SECTOR_SIZE < |h| && h[(l.at + 1) * SECTOR_SIZE] != ERASED
  {
    assert (l.at + 2) * SECTOR_SIZE <= |f|;
    EntriesTakeRoom(s);
  }

  /** A write that stays clear of the last byte of its sector changes no flag. */
  lemma FlagsAfterSplice(f: seq<byte>, n: nat, k: nat, off: nat, buf: seq<byte>)
    requires |f| == n * SECTOR_SIZE && k < n && off + |buf| < SECTOR_SIZE
    ensures k * SECTOR_SIZE + off + |buf| <= |f|
    ensures FullFlags(Splice(f, k * SECTOR_SIZE + off, buf), n) == FullFlags(f, n)
  {
    assert (k + 1) * SECTOR_SIZE <= |f|;
    var g := Splice(f, k * SECTOR_SIZE + off, buf);
    SpliceIsLocal(f, k, off, buf);
    forall j | 0 <= j < n
      ensures FullFlags(g, n)[j] == FullFlags(f, n)[j]
    {
      assert (j + 1) * SECTOR_SIZE <= |f|;
      SectorByte(f, j, SECTOR_SIZE - 1);
      SectorByte(g, j, SECTOR_SIZE - 1);
    }
  }

  /** Any cells that agree with the log up to the head, read 0 at the head, and
      have the same last bytes of sectors. */
  lemma HalfPadded(f: seq<byte>, l: Log, g: seq<byte>)
    requires LogOk(l) && Holds(f, l.sectors) && !l.wrapped && |g| == |f|
    requires HeadOffset(l) < |f| && g[..HeadOffset(l)] == f[..HeadOffset(l)] && g[HeadOffset(l)] == 0
    requires forall k :: 0 <= k < |l.sectors| ==> FullFlags(g, |l.sectors|)[k] == FullFlags(f, |l.sectors|)[k]
    ensures RecoveredHead(g, |l.sectors|) == (l.at + 1) * SECTOR_SIZE
  {
    SameHeadSector(f, l, g);
    WalkHalfPadded(f, l, g);
  }

  lemma WalkHalfPadded(f: seq<byte>, l: Log, g: seq<byte>)
    requires LogOk(l) && Holds(f, l.sectors) && |g| == |f|
    requires HeadOffset(l) < |f| && g[..HeadOffset(l)] == f[..HeadOffset(l)] && g[HeadOffset(l)] == 0
    ensures (l.at + 1) * SECTOR_SIZE <= |g|
    ensures Walk(g, WalkStart(l.at), (l.at + 1) * SECTOR_SIZE) == (l.at + 1) * SECTOR_SIZE
  {
    var limit := (l.at + 1) * SECTOR_SIZE;
    WalkToOpen(f, l.sectors, l.at);
    WalkAgrees(f, g, WalkStart(l.at), limit, HeadOffset(l));
    WalkOffPadding(g, l.at, Used(l.sectors[l.at]));
  }

  lemma SameHeadSector(f: seq<byte>, l: Log, g: seq<byte>)
    requires LogOk(l) && Holds(f, l.sectors) && !l.wrapped && |g| == |f|
    requires forall k :: 0 <= k < |l.sectors| ==> FullFlags(g, |l.sectors|)[k] == FullFlags(f, |l.sectors|)[k]
    ensures HeadSector(g, |l.sectors|) == l.at
  {
    assert FullFlags(g, |l.sectors|) == FullFlags(f, |l.sectors|);
    HeadSectorFirstLap(f, l);
  }

  lemma WalkOffPadding(g: seq<byte>, k: nat, off: nat)
    requires off < SECTOR_SIZE && (k + 1) * SECTOR_SIZE <= |g| && g[k * SECTOR_SIZE + off] == 0
    ensures Walk(g, k * SECTOR_SIZE + off, (k + 1) * SECTOR_SIZE) == (k + 1) * SECTOR_SIZE
  {
    SectorOfOffset(k, off);
  }

  /** Walks over cells that agree up to where the first one stops. */
  lemma {:induction false} WalkAgrees(f: seq<byte>, g: seq<byte>, c: nat, limit: nat, h: nat)
    requires limit <= |f| == |g| && h < limit && g[..h] == f[..h]
    requires Walk(f, c, limit) == h
    ensures Walk(g, c, limit) == Walk(g, h, limit)
    decreases limit - c
  {
    WalkGrows(f, c, limit);
    if c < h {
      assert f[c] == f[..h][c] == g[c];
      if f[c] == 0 {
        WalkAgrees(f, g, SectorEnd(c), limit, h);
      } else {
        WalkAgrees(f, g, c + f[c] + 1, limit, h);
      }
    }
  }

  lemma {:induction false} WalkGrows(f: seq<byte>, c: nat, limit: nat)
    requires limit <= |f|
    ensures Walk(f, c, limit) >= c
    decreases limit - c
  {
    if c < limit && f[c] != ERASED {
      WalkGrows(f, if f[c] == 0 then SectorEnd(c) else c + f[c] + 1, limit);
    }
  }
}
