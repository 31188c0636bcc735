// Reading the log back entry by entry with the persistent read cursor.

module LogReader {
  import opened Flash
  import opened LogModel

  // RunAway: the recursion over padding never ends.
  datatype Outcome =
    | Found(entry: Entry)
    | NotFound
    | InvalidSize
    | ReadError
    | InvalidState
    | RunAway

  datatype Step = Step(outcome: Outcome, cursor: nat)

  /** One read.  A cursor of 0 means "start from the tail".  Each padding byte
      costs one hop to the next sector; a call that makes more hops than there
      are sectors is going round in circles. */
  function ReadFrom(f: seq<byte>, head: nat, tail: nat, cursor: nat, hops: nat): Step
    decreases hops
  {
    var c := if cursor == 0 then tail else cursor;
    if c == head then Step(NotFound, c)
    else if c >= |f| then Step(ReadError, c)
    else if f[c] == ERASED then Step(NotFound, c)
    else if f[c] == 0 then
      if hops == 0 then Step(RunAway, c)
      else ReadFrom(f, head, tail, if SectorEnd(c) >= |f| then 0 else SectorEnd(c), hops - 1)
    else if f[c] > MAX_PAYLOAD + 1 then Step(InvalidSize, c)
    else if c + f[c] >= |f| then Step(ReadError, c)
    else
      var next := c + f[c] + 1;
      Step(Found(Entry(f[c + 1..c + f[c]], f[c + f[c]])), if next >= |f| then 0 else next)
  }

  /** The read s returns the entry that stands in the flash at c, byte for byte,
      and leaves the cursor at its end, or at 0, from where the next read
      restarts at the tail, when that is the end of the partition. */
  ghost predicate Stands(f: seq<byte>, head: nat, s: Step, c: nat)
    requires s.outcome.Found?
  {
    var e := s.outcome.entry;
    && e.Fits() && c != head && c + e.Size() <= |f| && f[c..c + e.Size()] == Encode(e)
    && s.cursor == if c + e.Size() == |f| then 0 else c + e.Size()
  }

  lemma EntryStands(f: seq<byte>, head: nat, c: nat)
    requires c != head && c < |f| && 0 < f[c] <= MAX_PAYLOAD + 1 && c + f[c] < |f|
    ensures var next := c + f[c] + 1;
            Stands(f, head, Step(Found(Entry(f[c + 1..c + f[c]], f[c + f[c]])), if next >= |f| then 0 else next), c)
  {
    var e := Entry(f[c + 1..c + f[c]], f[c + f[c]]);
    assert f[c..c + e.Size()] == [f[c]] + f[c + 1..c + f[c]] + [f[c + f[c]]];
  }

  /** Whatever bytes are on flash, a read returns only what stands there. */
  lemma {:induction false} ReadsWhatStands(f: seq<byte>, head: nat, tail: nat, cursor: nat, hops: nat) returns (c: nat)
    ensures var s := ReadFrom(f, head, tail, cursor, hops);
            s.outcome.Found? ==> Stands(f, head, s, c)
    decreases hops
  {
    c := if cursor == 0 then tail else cursor;
    if c != head && c < |f| {
      if f[c] == 0 && hops > 0 {
        c := ReadsWhatStands(f, head, tail, if SectorEnd(c) >= |f| then 0 else SectorEnd(c), hops - 1);
      } else if 0 < f[c] <= MAX_PAYLOAD + 1 && c + f[c] < |f| {
        EntryStands(f, head, c);
      }
    }
  }

  /** A read of the log l. */
  function ReadLog(f: seq<byte>, l: Log, cursor: nat, hops: nat): Step
    requires LogOk(l)
  {
    ReadFrom(f, HeadOffset(l), TailOffset(l), cursor, hops)
  }

  /** A read that starts on an entry returns it and moves past it. */
  lemma ReadEntry(f: seq<byte>, ss: seq<Sector>, head: nat, tail: nat, k: nat, i: nat, cursor: nat, hops: nat)
    requires Holds(f, ss) && k < |ss| && i < |ss[k].entries|
    requires var c := k * SECTOR_SIZE + Offset(ss[k].entries, i);
             c != head && (cursor == c || (cursor == 0 && tail == c)) && (c == 0 ==> tail == 0)
    ensures ReadFrom(f, head, tail, cursor, hops) ==
            Step(Found(ss[k].entries[i]), k * SECTOR_SIZE + Offset(ss[k].entries, i + 1))
  {
    var e := ss[k].entries[i];
    var c := k * SECTOR_SIZE + Offset(ss[k].entries, i);
    EntryOnFlash(f, ss, k, i);
    EncodedParts(f, c, e);
    assert c + e.Size() < (k + 1) * SECTOR_SIZE <= |f|;
  }

  /** A read that starts on a sealed sector's padding goes on from the next
      sector, or from cursor 0 after the last one. */
  lemma ReadPadding(f: seq<byte>, ss: seq<Sector>, head: nat, tail: nat, k: nat, cursor: nat, hops: nat)
    requires Holds(f, ss) && k < |ss| && ss[k].sealed && hops > 0
    requires var c := k * SECTOR_SIZE + Used(ss[k]);
             c != head && (cursor == c || (cursor == 0 && tail == c)) && (c == 0 ==> tail == 0)
    ensures ReadFrom(f, head, tail, cursor, hops) ==
            ReadFrom(f, head, tail, if k + 1 == |ss| then 0 else (k + 1) * SECTOR_SIZE, hops - 1)
  {
    FillerOnFlash(f, ss, k);
    SectorOfOffset(k, Used(ss[k]));
  }

  /** What is still to be read from entry i of sector k up to the head. */
  function Remaining(l: Log, k: nat, i: nat): seq<Entry>
    requires LogOk(l) && k <= l.at && i <= |l.sectors[k].entries|
  {
    l.sectors[k].entries[i..] + Flatten(l.sectors[k + 1..l.at + 1])
  }

  /** The cursor value c stands for "before entry i of sector k". */
  ghost predicate CursorAt(l: Log, c: nat, k: nat, i: nat)
    requires LogOk(l)
  {
    && l.tailSector <= k <= l.at && i <= |l.sectors[k].entries|
    && (c == k * SECTOR_SIZE + Offset(l.sectors[k].entries, i)
        || (c == 0 && k == l.tailSector && i == 0))
  }

  lemma CursorResolves(l: Log, cursor: nat, k: nat, i: nat)
    requires LogOk(l) && CursorAt(l, cursor, k, i)
    ensures var c := k * SECTOR_SIZE + Offset(l.sectors[k].entries, i);
            (cursor == c || (cursor == 0 && TailOffset(l) == c)) && (c == 0 ==> TailOffset(l) == 0)
  {
    OffsetEnds(l.sectors[k].entries);
  }

  lemma RemainingSplits(l: Log, k: nat, i: nat)
    requires LogOk(l) && k <= l.at && i <= |l.sectors[k].entries|
    ensures var es := l.sectors[k].entries;
            && (i < |es| ==> Remaining(l, k, i) == [es[i]] + Remaining(l, k, i + 1))
            && (i == |es| && k < l.at ==> Remaining(l, k, i) == Remaining(l, k + 1, 0))
            && (i == |es| && k == l.at ==> Remaining(l, k, i) == [])
  {
    assert k < l.at ==> l.sectors[k + 1..l.at + 1][1..] == l.sectors[k + 2..l.at + 1];
  }

  lemma OnEntry(f: seq<byte>, l: Log, k: nat, i: nat, cursor: nat, hops: nat)
    requires LogOk(l) && Holds(f, l.sectors)
    requires CursorAt(l, cursor, k, i) && i < |l.sectors[k].entries|
    ensures Delivers(ReadLog(f, l, cursor, hops), Remaining(l, k, i), l, k, i + 1)
  {
    CursorResolves(l, cursor, k, i);
    CursorBeforeHead(l, k, i);
    RemainingSplits(l, k, i);
    ReadEntry(f, l.sectors, HeadOffset(l), TailOffset(l), k, i, cursor, hops);
  }

  lemma OnPadding(f: seq<byte>, l: Log, k: nat, i: nat, cursor: nat, hops: nat)
    requires LogOk(l) && Holds(f, l.sectors) && hops > 0
    requires k < l.at && CursorAt(l, cursor, k, i) && i == |l.sectors[k].entries|
    ensures ReadLog(f, l, cursor, hops)
         == ReadLog(f, l, (k + 1) * SECTOR_SIZE, hops - 1)
    ensures CursorAt(l, (k + 1) * SECTOR_SIZE, k + 1, 0)
    ensures Remaining(l, k, i) == Remaining(l, k + 1, 0)
  {
    CursorResolves(l, cursor, k, i);
    CursorBeforeHead(l, k, i);
    OffsetEnds(l.sectors[k].entries);
    NextSectorStart(l, k);
    RemainingSplits(l, k, i);
    ReadPadding(f, l.sectors, HeadOffset(l), TailOffset(l), k, cursor, hops);
  }

  lemma OnHead(f: seq<byte>, l: Log, k: nat, i: nat, cursor: nat, hops: nat)
    requires LogOk(l) && CursorAt(l, cursor, k, i) && k == l.at && i == |l.sectors[k].entries|
    ensures ReadLog(f, l, cursor, hops).outcome == NotFound
    ensures Remaining(l, k, i) == []
  {
    CursorResolves(l, cursor, k, i);
    OffsetEnds(l.sectors[k].entries);
    RemainingSplits(l, k, i);
  }

  /** The step s delivers the first entry of rest, leaving the cursor before
      entry i of sector k, or reports that there is none. */
  ghost predicate Delivers(s: Step, rest: seq<Entry>, l: Log, k: nat, i: nat)
    requires LogOk(l)
  {
    if rest == [] then s.outcome == NotFound
    else s.outcome == Found(rest[0]) && CursorAt(l, s.cursor, k, i) && Remaining(l, k, i) == rest[1..]
  }

  lemma NextSectorStart(l: Log, k: nat)
    requires LogOk(l) && l.tailSector <= k < l.at
    ensures CursorAt(l, (k + 1) * SECTOR_SIZE, k + 1, 0)
  {
    OffsetEnds(l.sectors[k + 1].entries);
  }

  /** The read s starts before entry i of sector k, with rest still to come. */
  ghost predicate Reads(f: seq<byte>, l: Log, s: Step, rest: seq<Entry>, k: nat, i: nat, cursor: nat, hops: nat)
    requires LogOk(l)
  {
    CursorAt(l, cursor, k, i) && s == ReadLog(f, l, cursor, hops) && Remaining(l, k, i) == rest
  }

  /** One step over padding. */
  lemma HopPadding(f: seq<byte>, l: Log, s: Step, rest: seq<Entry>, k: nat, i: nat, cursor: nat, hops: nat)
    requires LogOk(l) && Holds(f, l.sectors) && hops > 0
    requires Reads(f, l, s, rest, k, i, cursor, hops) && k < l.at && i == |l.sectors[k].entries|
    ensures Reads(f, l, s, rest, k + 1, 0, (k + 1) * SECTOR_SIZE, hops - 1)
  {
    OnPadding(f, l, k, i, cursor, hops);
  }

  /** A read takes up where the padding it skips ends: before an entry, or at
      the head. */
  lemma {:induction false} SkipPadding(f: seq<byte>, l: Log, s: Step, rest: seq<Entry>,
          k: nat, i: nat, cursor: nat, hops: nat)
    returns (k': nat, i': nat, cursor': nat, hops': nat)
    requires LogOk(l) && Holds(f, l.sectors)
    requires Reads(f, l, s, rest, k, i, cursor, hops) && hops >= l.at - k
    ensures Reads(f, l, s, rest, k', i', cursor', hops')
    ensures i' == |l.sectors[k'].entries| ==> k' == l.at
    decreases l.at - k
  {
    k', i', cursor', hops' := k, i, cursor, hops;
    if i == |l.sectors[k].entries| && k < l.at {
      HopPadding(f, l, s, rest, k, i, cursor, hops);
      k', i', cursor', hops' := SkipPadding(f, l, s, rest, k + 1, 0, (k + 1) * SECTOR_SIZE, hops - 1);
    }
  }

  /** The effect of one read, at any point of the log. */
  lemma ReadStep(f: seq<byte>, l: Log, k: nat, i: nat, cursor: nat, hops: nat)
    returns (s: Step, k': nat, i': nat)
    requires LogOk(l) && Holds(f, l.sectors)
    requires CursorAt(l, cursor, k, i) && hops >= l.at - k
    ensures s == ReadLog(f, l, cursor, hops)
    ensures Delivers(s, Remaining(l, k, i), l, k', i')
  {
    var c, h;
    s := ReadLog(f, l, cursor, hops);
    k', i', c, h := SkipPadding(f, l, s, Remaining(l, k, i), k, i, cursor, hops);
    if i' < |l.sectors[k'].entries| {
      OnEntry(f, l, k', i', c, h);
      i' := i' + 1;
    } else {
      OnHead(f, l, k', i', c, h);
    }
  }

  /** Every position but the last is before the head. */
  lemma CursorBeforeHead(l: Log, k: nat, i: nat)
    requires LogOk(l) && k <= l.at && i <= |l.sectors[k].entries|
    requires k < l.at || i < |l.sectors[k].entries|
    ensures k * SECTOR_SIZE + Offset(l.sectors[k].entries, i) < HeadOffset(l)
  {
    var es := l.sectors[k].entries;
    OffsetEnds(es);
    if i < |es| {
      EntryAt(es, i);
    }
    assert Offset(es, i) <= Used(l.sectors[k]) < SECTOR_SIZE;
  }

  /** The cursor after j reads that began with a reset. */
  function CursorAfter(f: seq<byte>, l: Log, hops: nat, j: nat): nat
    requires LogOk(l)
  {
    if j == 0 then 0 else ReadLog(f, l, CursorAfter(f, l, hops, j - 1), hops).cursor
  }

  lemma VisibleFromTail(l: Log)
    requires LogOk(l) && l.tailSector <= l.at
    ensures Remaining(l, l.tailSector, 0) == Visible(l)
  {
    var vs := l.sectors[l.tailSector..l.at + 1];
    assert vs[1..] == l.sectors[l.tailSector + 1..l.at + 1];
  }

  lemma {:induction false} AfterReads(f: seq<byte>, l: Log, hops: nat, j: nat) returns (k: nat, i: nat)
    requires LogOk(l) && Holds(f, l.sectors) && l.tailSector <= l.at
    requires hops >= |l.sectors| && j <= |Visible(l)|
    ensures CursorAt(l, CursorAfter(f, l, hops, j), k, i)
    ensures Remaining(l, k, i) == Visible(l)[j..]
    decreases j
  {
    if j == 0 {
      k, i := l.tailSector, 0;
      VisibleFromTail(l);
    } else {
      k, i := AfterReads(f, l, hops, j - 1);
      var s;
      s, k, i := ReadStep(f, l, k, i, CursorAfter(f, l, hops, j - 1), hops);
    }
  }

  /** Reading from a reset returns the visible log, entry by entry, and then
      NOT_FOUND. */
  lemma ReadBack(f: seq<byte>, l: Log, hops: nat, j: nat)
    requires LogOk(l) && Holds(f, l.sectors) && l.tailSector <= l.at
    requires hops >= |l.sectors| && j <= |Visible(l)|
    ensures var c := CursorAfter(f, l, hops, j);
            ReadLog(f, l, c, hops).outcome ==
            if j < |Visible(l)| then Found(Visible(l)[j]) else NotFound
  {
    var c := CursorAfter(f, l, hops, j);
    var k, i := AfterReads(f, l, hops, j);
    var s;
    s, k, i := ReadStep(f, l, k, i, c, hops);
  }

  // ---- A tail ahead of the head ------------------------------------------------

  /** The cursor is in the part of the log before the partition's end. */
  ghost predicate BeforeTheEnd(l: Log, c: nat, k: nat, i: nat)
    requires LogOk(l)
  {
    && l.tailSector <= k < |l.sectors| && i <= |l.sectors[k].entries|
    && (c == k * SECTOR_SIZE + Offset(l.sectors[k].entries, i)
        || (c == 0 && k == l.tailSector && i == 0))
  }

  /** A step that finds an entry or runs away, and stays in that part. */
  ghost predicate Circles(s: Step, l: Log, k: nat, i: nat)
    requires LogOk(l)
  {
    (s.outcome.Found? || s.outcome.RunAway?) && BeforeTheEnd(l, s.cursor, k, i)
  }

  lemma ResolvesBeforeTheEnd(l: Log, cursor: nat, k: nat, i: nat)
    requires LogOk(l) && l.tailSector > l.at && BeforeTheEnd(l, cursor, k, i)
    ensures var c := k * SECTOR_SIZE + Offset(l.sectors[k].entries, i);
            && (cursor == c || (cursor == 0 && TailOffset(l) == c))
            && 0 < c && HeadOffset(l) < c
  {
    OffsetEnds(l.sectors[k].entries);
  }

  lemma EntryBeforeTheEnd(f: seq<byte>, l: Log, k: nat, i: nat, cursor: nat, hops: nat)
    requires LogOk(l) && Holds(f, l.sectors) && l.tailSector > l.at
    requires BeforeTheEnd(l, cursor, k, i) && i < |l.sectors[k].entries|
    ensures var s := ReadLog(f, l, cursor, hops);
            Circles(s, l, k, i + 1)
  {
    ResolvesBeforeTheEnd(l, cursor, k, i);
    ReadEntry(f, l.sectors, HeadOffset(l), TailOffset(l), k, i, cursor, hops);
  }

  lemma PaddingBeforeTheEnd(f: seq<byte>, l: Log, k: nat, cursor: nat, hops: nat) returns (next: nat, k': nat)
    requires LogOk(l) && Holds(f, l.sectors) && l.tailSector > l.at && hops > 0
    requires k < |l.sectors| && BeforeTheEnd(l, cursor, k, |l.sectors[k].entries|)
    ensures BeforeTheEnd(l, next, k', 0)
    ensures ReadLog(f, l, cursor, hops)
         == ReadLog(f, l, next, hops - 1)
  {
    ResolvesBeforeTheEnd(l, cursor, k, |l.sectors[k].entries|);
    OffsetEnds(l.sectors[k].entries);
    ReadPadding(f, l.sectors, HeadOffset(l), TailOffset(l), k, cursor, hops);
    if k + 1 == |l.sectors| {
      next, k' := 0, l.tailSector;
    } else {
      next, k' := (k + 1) * SECTOR_SIZE, k + 1;
      OffsetEnds(l.sectors[k + 1].entries);
    }
  }

  lemma StuckBeforeTheEnd(f: seq<byte>, l: Log, k: nat, cursor: nat)
    requires LogOk(l) && Holds(f, l.sectors) && l.tailSector > l.at
    requires k < |l.sectors| && BeforeTheEnd(l, cursor, k, |l.sectors[k].entries|)
    ensures var s := ReadLog(f, l, cursor, 0);
            Circles(s, l, k, |l.sectors[k].entries|)
  {
    ResolvesBeforeTheEnd(l, cursor, k, |l.sectors[k].entries|);
    OffsetEnds(l.sectors[k].entries);
    FillerOnFlash(f, l.sectors, k);
  }

  /** With the tail ahead of the head, a read never leaves that part: the step
      past the partition's end is taken for a reset. */
  lemma {:induction false} StaysBeforeTheEnd(f: seq<byte>, l: Log, k: nat, i: nat, cursor: nat, hops: nat)
    returns (s: Step, k': nat, i': nat)
    requires LogOk(l) && Holds(f, l.sectors) && l.tailSector > l.at
    requires BeforeTheEnd(l, cursor, k, i)
    ensures s == ReadLog(f, l, cursor, hops)
    ensures Circles(s, l, k', i')
    decreases hops
  {
    s, k', i' := ReadLog(f, l, cursor, hops), k, i;
    if i < |l.sectors[k].entries| {
      i' := i + 1;
      EntryBeforeTheEnd(f, l, k, i, cursor, hops);
    } else if hops > 0 {
      var next;
      next, k' := PaddingBeforeTheEnd(f, l, k, cursor, hops);
      s, k', i' := StaysBeforeTheEnd(f, l, k', 0, next, hops - 1);
    } else {
      StuckBeforeTheEnd(f, l, k, cursor);
    }
  }

  lemma {:induction false} NeverReachesHead(f: seq<byte>, l: Log, hops: nat, j: nat) returns (k: nat, i: nat)
    requires LogOk(l) && Holds(f, l.sectors) && l.tailSector > l.at
    ensures BeforeTheEnd(l, CursorAfter(f, l, hops, j), k, i)
  {
    if j == 0 {
      k, i := l.tailSector, 0;
    } else {
      k, i := NeverReachesHead(f, l, hops, j - 1);
      var s;
      s, k, i := StaysBeforeTheEnd(f, l, k, i, CursorAfter(f, l, hops, j - 1), hops);
    }
  }

  /** Read j after a reset reports that the log is exhausted. */
  ghost predicate Exhausted(f: seq<byte>, l: Log, hops: nat, j: nat)
    requires LogOk(l)
  {
    ReadLog(f, l, CursorAfter(f, l, hops, j), hops).outcome
    == NotFound
  }

  /** Reading from a reset comes to an end if and only if the tail is not ahead
      of the head. */
  lemma ReadingEndsIff(f: seq<byte>, l: Log, hops: nat)
    requires LogOk(l) && Holds(f, l.sectors) && hops >= |l.sectors|
    ensures (exists j: nat :: Exhausted(f, l, hops, j)) <==> l.tailSector <= l.at
  {
    if l.tailSector <= l.at {
      ReadBack(f, l, hops, |Visible(l)|);
      assert Exhausted(f, l, hops, |Visible(l)|);
    } else {
      forall j: nat
        ensures !Exhausted(f, l, hops, j)
      {
        var c := CursorAfter(f, l, hops, j);
        var k, i := NeverReachesHead(f, l, hops, j);
        var s;
        s, k, i := StaysBeforeTheEnd(f, l, k, i, c, hops);
      }
    }
  }
}
