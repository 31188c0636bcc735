// How what is on flash, and what a reader sees, relate to everything that was
// ever written, across any number of wraps.

module LogHistory {
  import opened Flash
  import opened LogModel
  import opened LogRecovery

  ghost predicate IsSuffix<T>(s: seq<T>, t: seq<T>) {
    |s| <= |t| && t[|t| - |s|..] == s
  }

  lemma SuffixTransitive<T>(a: seq<T>, b: seq<T>, c: seq<T>)
    requires IsSuffix(a, b) && IsSuffix(b, c)
    ensures IsSuffix(a, c)
  {
    assert c[|c| - |a|..] == c[|c| - |b|..][|b| - |a|..];
  }

  lemma SuffixDrop<T>(p: seq<T>, s: seq<T>, t: seq<T>)
    requires IsSuffix(p + s, t)
    ensures IsSuffix(s, t)
  {
    assert IsSuffix(s, p + s);
    SuffixTransitive(s, p + s, t);
  }

  lemma FlattenSnoc(ss: seq<Sector>, s: Sector)
    ensures Flatten(ss + [s]) == Flatten(ss) + s.entries
  {
    FlattenConcat(ss, [s]);
    assert Flatten([s]) == s.entries + Flatten([]);
  }

  /** The entries written since the head last passed the partition's start. */
  function CurrentLap(l: Log): seq<Entry>
    requires LogOk(l)
  {
    Flatten(l.sectors[..l.at + 1])
  }

  /** The sectors behind the head: what is left of the lap before. */
  function PreviousLap(l: Log): seq<Entry>
    requires LogOk(l)
  {
    Flatten(l.sectors[l.at + 1..])
  }

  /** written is everything written so far, lapStart where the current lap
      begins in it. */
  ghost predicate HistoryOk(l: Log, written: seq<Entry>, lapStart: nat)
    requires LogOk(l)
  {
    && lapStart <= |written|
    && CurrentLap(l) == written[lapStart..]
    && IsSuffix(Retained(l), written)
    && (!l.wrapped ==> lapStart == 0)
  }

  lemma FreshHistory(n: nat)
    requires n > 0
    ensures HistoryOk(FreshLog(n), [], 0)
  {
    var l := FreshLog(n);
    FlattenEmpty(l.sectors[..1]);
    FlattenEmpty(l.sectors[1..]);
  }

  lemma {:induction false} FlattenEmpty(ss: seq<Sector>)
    requires forall k :: 0 <= k < |ss| ==> ss[k] == EMPTY
    ensures Flatten(ss) == []
  {
    if ss != [] {
      FlattenEmpty(ss[1..]);
    }
  }

  lemma AppendToLap(l: Log, e: Entry)
    requires LogOk(l) && e.Fits() && !MustAdvance(l, e.Size())
    ensures CurrentLap(Append(l, e)) == CurrentLap(l) + [e]
  {
    var r := Append(l, e);
    assert l.sectors[..l.at + 1] == l.sectors[..l.at] + [l.sectors[l.at]];
    assert r.sectors[..r.at + 1] == l.sectors[..l.at] + [r.sectors[r.at]];
    FlattenSnoc(l.sectors[..l.at], l.sectors[l.at]);
    FlattenSnoc(l.sectors[..l.at], r.sectors[r.at]);
  }

  lemma AppendHistory(l: Log, e: Entry, written: seq<Entry>, lapStart: nat)
    requires LogOk(l) && e.Fits() && !MustAdvance(l, e.Size())
    requires HistoryOk(l, written, lapStart)
    ensures HistoryOk(Append(l, e), written + [e], lapStart)
  {
    var r := Append(l, e);
    AppendToLap(l, e);
    assert r.sectors[r.at + 1..] == l.sectors[l.at + 1..];
    assert Retained(r) == Retained(l) + [e];
  }

  lemma {:induction false} FlattenSealed(ss: seq<Sector>, k: nat)
    requires k < |ss|
    ensures Flatten(ss[k := ss[k].(sealed := true)]) == Flatten(ss)
  {
    var tt := ss[k := ss[k].(sealed := true)];
    if k > 0 {
      assert tt[1..] == ss[1..][k - 1 := ss[1..][k - 1].(sealed := true)];
      FlattenSealed(ss[1..], k - 1);
    } else {
      assert tt[1..] == ss[1..];
    }
  }

  lemma AdvanceWithinLap(l: Log)
    requires LogOk(l) && l.at + 1 < |l.sectors|
    ensures CurrentLap(Advance(l)) == CurrentLap(l)
    ensures PreviousLap(l) == l.sectors[l.at + 1].entries + PreviousLap(Advance(l))
  {
    var r := Advance(l);
    assert r.sectors[..r.at + 1] == Sealed(l)[..l.at + 1] + [EMPTY];
    FlattenSnoc(Sealed(l)[..l.at + 1], EMPTY);
    assert Sealed(l)[..l.at + 1] == l.sectors[..l.at + 1][l.at := l.sectors[l.at].(sealed := true)];
    FlattenSealed(l.sectors[..l.at + 1], l.at);
    assert l.sectors[l.at + 1..][1..] == r.sectors[r.at + 1..];
  }

  lemma AdvanceToNextLap(l: Log)
    requires LogOk(l) && l.at + 1 == |l.sectors|
    ensures CurrentLap(Advance(l)) == [] && PreviousLap(l) == []
    ensures CurrentLap(l) == Sealed(l)[0].entries + PreviousLap(Advance(l))
  {
    var r := Advance(l);
    FlattenEmpty(r.sectors[..1]);
    FlattenEmpty(l.sectors[l.at + 1..]);
    assert l.sectors[..l.at + 1] == l.sectors;
    FlattenSealed(l.sectors, l.at);
    assert r.sectors[r.at + 1..] == Sealed(l)[1..];
  }

  function LapStartAfter(l: Log, written: seq<Entry>, lapStart: nat): nat
    requires LogOk(l)
  {
    if l.at + 1 == |l.sectors| then |written| else lapStart
  }

  lemma AdvanceHistory(l: Log, written: seq<Entry>, lapStart: nat)
    requires LogOk(l) && HistoryOk(l, written, lapStart)
    ensures HistoryOk(Advance(l), written, LapStartAfter(l, written, lapStart))
  {
    var r := Advance(l);
    if l.at + 1 < |l.sectors| {
      AdvanceWithinLap(l);
      assert Retained(l) == l.sectors[l.at + 1].entries + Retained(r);
      SuffixDrop(l.sectors[l.at + 1].entries, Retained(r), written);
    } else {
      AdvanceToNextLap(l);
      assert Retained(l) == Sealed(l)[0].entries + Retained(r);
      SuffixDrop(Sealed(l)[0].entries, Retained(r), written);
    }
  }

  lemma VisibleWithinLap(l: Log)
    requires LogOk(l) && l.tailSector <= l.at
    ensures IsSuffix(Visible(l), Retained(l))
  {
    var ss, t := l.sectors[..l.at + 1], l.tailSector;
    assert ss == ss[..t] + ss[t..] && ss[t..] == l.sectors[t..l.at + 1];
    FlattenConcat(ss[..t], ss[t..]);
  }

  lemma {:induction false} VisibleAcrossLaps(l: Log)
    requires LogOk(l) && l.tailSector > l.at
    ensures IsSuffix(Visible(l), Retained(l))
  {
    var skipped, kept := l.sectors[l.at + 1..l.tailSector], l.sectors[l.tailSector..];
    assert l.sectors[l.at + 1..] == skipped + kept;
    FlattenConcat(skipped, kept);
    FlattenConcat(kept, l.sectors[..l.at + 1]);
    SuffixOfThree(Flatten(skipped), Flatten(kept), CurrentLap(l));
  }

  lemma SuffixOfThree<T>(a: seq<T>, b: seq<T>, c: seq<T>)
    ensures IsSuffix(b + c, (a + b) + c)
  {
  }

  /** What is visible is always the most recent part of what is retained. */
  lemma VisibleIsSuffix(l: Log)
    requires LogOk(l)
    ensures IsSuffix(Visible(l), Retained(l))
    ensures l.tailSector == 0 ==> Visible(l) == CurrentLap(l)
  {
    if l.tailSector <= l.at {
      VisibleWithinLap(l);
    } else {
      VisibleAcrossLaps(l);
    }
  }

  /** A reboot keeps the history. */
  lemma RebootedHistory(l: Log, written: seq<Entry>, lapStart: nat)
    requires LogOk(l) && HistoryOk(l, written, lapStart)
    ensures HistoryOk(Rebooted(l), written, lapStart)
    ensures CurrentLap(Rebooted(l)) == CurrentLap(l) && Retained(Rebooted(l)) == Retained(l)
  {
  }

  /** After a reboot everything still on flash is visible. */
  lemma RebootedShowsAll(l: Log)
    requires LogOk(l)
    ensures Visible(Rebooted(l)) == Retained(l)
  {
    var r := Rebooted(l);
    if r.tailSector == 0 {
      VisibleIsSuffix(r);
      if l.wrapped {
        assert l.at + 1 == |l.sectors|;
      }
      FlattenEmptyTail(l);
    } else {
      FlattenConcat(l.sectors[l.at + 1..], l.sectors[..l.at + 1]);
    }
  }

  lemma FlattenEmptyTail(l: Log)
    requires LogOk(l) && (!l.wrapped || l.at + 1 == |l.sectors|)
    ensures PreviousLap(l) == [] && Retained(l) == CurrentLap(l)
  {
    FlattenEmpty(l.sectors[l.at + 1..]);
  }

  // ---- What one write keeps, and what it hides ----------------------------------------

  /** Where the tail goes when the head enters the next sector: a tail that lies
      ahead comes to just behind the new head, and everything on flash is
      visible; any other stays. */
  lemma TailAfterAdvance(l: Log)
    requires LogOk(l)
    ensures l.tailSector > NextSector(l) ==>
              Advance(l).tailSector == NextSector(l) + 1 && Visible(Advance(l)) == Retained(Advance(l))
    ensures l.tailSector <= NextSector(l) ==> Advance(l).tailSector == l.tailSector
  {
    var r := Advance(l);
    if l.tailSector > NextSector(l) {
      FlattenConcat(r.sectors[r.at + 1..], r.sectors[..r.at + 1]);
    }
  }

  /** The entries on flash that no reader is shown. */
  function Hidden(l: Log): seq<Entry>
    requires LogOk(l) && l.tailSector <= l.at
  {
    PreviousLap(l) + Flatten(l.sectors[..l.tailSector])
  }

  lemma VisibleAfterHidden(l: Log)
    requires LogOk(l) && l.tailSector <= l.at
    ensures Retained(l) == Hidden(l) + Visible(l)
  {
    var ss, t := l.sectors[..l.at + 1], l.tailSector;
    assert ss == ss[..t] + ss[t..] && ss[t..] == l.sectors[t..l.at + 1] && ss[..t] == l.sectors[..t];
    FlattenConcat(ss[..t], ss[t..]);
    ConcatAssoc(PreviousLap(l), Flatten(l.sectors[..t]), Visible(l));
  }

  /** Stepping on shows everything on flash if and only if the tail lay ahead of
      the sector entered, or there is nothing else on flash. */
  lemma ShowsAllIff(l: Log)
    requires LogOk(l)
    ensures Visible(Advance(l)) == Retained(Advance(l)) <==>
            (l.tailSector > NextSector(l) || Hidden(Advance(l)) == [])
  {
    TailAfterAdvance(l);
    if l.tailSector <= NextSector(l) {
      VisibleAfterHidden(Advance(l));
    }
  }

  /** In particular, stepping into the tail's own sector, as the first step after
      a boot in a later lap does, leaves nothing visible. */
  lemma EnteringTailHidesAll(l: Log)
    requires LogOk(l) && l.tailSector == NextSector(l)
    ensures Visible(Advance(l)) == [] && Advance(l).tailSector == Advance(l).at
    ensures Hidden(Advance(l)) == Retained(Advance(l))
  {
    var r := Advance(l);
    assert r.sectors[r.at..r.at + 1] == [EMPTY];
    FlattenEmpty(r.sectors[r.at..r.at + 1]);
    VisibleAfterHidden(r);
  }

  lemma AppendShows(l: Log, e: Entry)
    requires LogOk(l) && e.Fits() && !MustAdvance(l, e.Size())
    ensures Visible(Append(l, e)) == Visible(l) + [e]
  {
    if l.tailSector <= l.at {
      AppendWithin(l, e, l.tailSector);
    } else {
      AppendAround(l, e);
    }
  }

  lemma AppendWithin(l: Log, e: Entry, t: nat)
    requires LogOk(l) && e.Fits() && !MustAdvance(l, e.Size()) && t <= l.at
    ensures Flatten(Append(l, e).sectors[t..l.at + 1]) == Flatten(l.sectors[t..l.at + 1]) + [e]
  {
    var r, front := Append(l, e), l.sectors[t..l.at];
    assert l.sectors[t..l.at + 1] == front + [l.sectors[l.at]];
    assert r.sectors[t..l.at + 1] == front + [r.sectors[l.at]];
    FlattenSnoc(front, l.sectors[l.at]);
    FlattenSnoc(front, r.sectors[l.at]);
  }

  lemma AppendAround(l: Log, e: Entry)
    requires LogOk(l) && e.Fits() && !MustAdvance(l, e.Size()) && l.tailSector > l.at
    ensures Visible(Append(l, e)) == Visible(l) + [e]
  {
    var r, t := Append(l, e), l.tailSector;
    AppendToLap(l, e);
    assert r.sectors[t..] == l.sectors[t..];
    FlattenConcat(l.sectors[t..], l.sectors[..l.at + 1]);
    FlattenConcat(r.sectors[t..], r.sectors[..l.at + 1]);
    ConcatAssoc(Flatten(l.sectors[t..]), CurrentLap(l), [e]);
  }

  lemma AppendRetains(l: Log, e: Entry)
    requires LogOk(l) && e.Fits() && !MustAdvance(l, e.Size())
    ensures Retained(Append(l, e)) == Retained(l) + [e]
  {
    AppendToLap(l, e);
    assert Append(l, e).sectors[l.at + 1..] == l.sectors[l.at + 1..];
  }

  lemma AppendOffsets(l: Log, e: Entry)
    requires LogOk(l) && e.Fits() && !MustAdvance(l, e.Size())
    ensures HeadOffset(Append(l, e)) == HeadOffset(l) + e.Size() && TailOffset(Append(l, e)) == TailOffset(l)
  {
    EncodeAllSnoc(l.sectors[l.at].entries, e);
  }

  /** Stepping on loses exactly what the sector entered held. */
  lemma AdvanceDrops(l: Log)
    requires LogOk(l)
    ensures Retained(l) == l.sectors[NextSector(l)].entries + Retained(Advance(l))
  {
    if l.at + 1 < |l.sectors| {
      AdvanceWithinLap(l);
    } else {
      AdvanceToNextLap(l);
    }
  }

  /** r is l with e written where there was room behind the head: nothing moves
      or goes. */
  ghost predicate Stayed(l: Log, r: Log, e: Entry)
    requires LogOk(l) && LogOk(r)
  {
    && HeadOffset(r) == HeadOffset(l) + e.Size() && TailOffset(r) == TailOffset(l)
    && Visible(r) == Visible(l) + [e] && Retained(r) == Retained(l) + [e]
  }

  /** r is l with e written at the start of sector k: what was there is lost, a
      tail ahead comes to just behind the head and everything on flash is
      visible, any other tail stays. */
  ghost predicate MovedOn(l: Log, r: Log, e: Entry, k: nat)
    requires LogOk(l) && LogOk(r) && k < |l.sectors|
  {
    && HeadOffset(r) == k * SECTOR_SIZE + e.Size()
    && Retained(l) + [e] == l.sectors[k].entries + Retained(r)
    && if l.tailSector > k then r.tailSector == k + 1 && Visible(r) == Retained(r)
       else r.tailSector == l.tailSector
  }

  /** What a write does: it stays when its entry ends before the head's sector
      does, and moves on round the partition otherwise. */
  ghost predicate Placed(l: Log, r: Log, e: Entry)
    requires LogOk(l) && LogOk(r)
  {
    if HeadOffset(l) % SECTOR_SIZE + e.Size() < SECTOR_SIZE then Stayed(l, r, e)
    else MovedOn(l, r, e, (l.at + 1) % |l.sectors|)
  }

  lemma WriteLoses(l: Log, e: Entry)
    requires LogOk(l) && e.Fits() && MustAdvance(l, e.Size())
    ensures Retained(l) + [e] == l.sectors[NextSector(l)].entries + Retained(Write(l, e))
  {
    AdvanceDrops(l);
    AppendRetains(Advance(l), e);
    ConcatAssoc(l.sectors[NextSector(l)].entries, Retained(Advance(l)), [e]);
  }

  lemma WriteMovesOn(l: Log, e: Entry)
    requires LogOk(l) && e.Fits() && MustAdvance(l, e.Size())
    ensures MovedOn(l, Write(l, e), e, NextSector(l))
  {
    WriteLoses(l, e);
    AdvancedTail(l, e);
    AppendOffsets(Advance(l), e);
  }

  lemma AdvancedTail(l: Log, e: Entry)
    requires LogOk(l) && e.Fits() && MustAdvance(l, e.Size())
    ensures var r := Write(l, e);
            if l.tailSector > NextSector(l) then r.tailSector == NextSector(l) + 1 && Visible(r) == Retained(r)
            else r.tailSector == l.tailSector
  {
    TailAfterAdvance(l);
    AppendShows(Advance(l), e);
    AppendRetains(Advance(l), e);
  }

  lemma WriteStays(l: Log, e: Entry)
    requires LogOk(l) && e.Fits() && !MustAdvance(l, e.Size())
    ensures Stayed(l, Write(l, e), e)
  {
    AppendOffsets(l, e);
    AppendShows(l, e);
    AppendRetains(l, e);
  }

  lemma RoomBehindHead(l: Log, size: nat)
    requires LogOk(l)
    ensures HeadOffset(l) % SECTOR_SIZE + size >= SECTOR_SIZE <==> MustAdvance(l, size)
  {
    SectorOfOffset(l.at, Used(l.sectors[l.at]));
  }

  lemma NextRound(l: Log)
    requires LogOk(l)
    ensures NextSector(l) == (l.at + 1) % |l.sectors|
  {
  }

  lemma WritePlaces(l: Log, e: Entry)
    requires LogOk(l) && e.Fits()
    ensures Placed(l, Write(l, e), e)
  {
    RoomBehindHead(l, e.Size());
    NextRound(l);
    if MustAdvance(l, e.Size()) {
      WriteMovesOn(l, e);
    } else {
      WriteStays(l, e);
    }
  }
}
