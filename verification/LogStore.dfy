// The log writer, its queue, and the boot-time scan, on the flash cells.

module LogStore {
  import opened Flash
  import opened LogModel
  import opened LogHistory
  import opened LogReader
  import opened LogRecovery

  const QUEUE_SIZE: nat := 8

  datatype Status = Ok | Fail | InvalidLength | InvalidArg | NoMem

  lemma PadMore(f: seq<byte>, g: seq<byte>, off: nat, done: nat, chunk: nat)
    requires off + done + chunk <= |f| && AllErased(f, off, off + done + chunk)
    requires g == Splice(f, off, Fill(0, done))
    ensures AllErased(g, off + done, off + done + chunk)
    ensures Splice(g, off + done, Fill(0, chunk)) == Splice(f, off, Fill(0, done + chunk))
  {
    SpliceTwice(f, off, Fill(0, done), Fill(0, chunk));
    assert Fill(0, done) + Fill(0, chunk) == Fill(0, done + chunk);
  }

  /** Program zeros over `gap` erased bytes, at most CHUNK at a time. */
  method ZeroPad(cells: array<byte>, off: nat, gap: nat)
    requires off + gap <= cells.Length && AllErased(cells[..], off, off + gap)
    modifies cells
    ensures cells[..] == Splice(old(cells[..]), off, Fill(0, gap))
  {
    ghost var base := cells[..];
    var done := 0;
    while done < gap
      invariant 0 <= done <= gap
      invariant cells[..] == Splice(base, off, Fill(0, done))
    {
      var chunk := if CHUNK <= gap - done then CHUNK else gap - done;
      PadMore(base, cells[..], off, done, chunk);
      ProgramFresh(cells, off + done, Fill(0, chunk));
      done := done + chunk;
    }
  }

  /** Erasing sector k empties it; a first byte of 0xFF says it is empty. */
  lemma EraseSector(f: seq<byte>, ss: seq<Sector>, k: nat) returns (g: seq<byte>)
    requires Holds(f, ss) && k < |ss|
    ensures (k + 1) * SECTOR_SIZE <= |f|
    ensures g == Splice(f, k * SECTOR_SIZE, Fill(ERASED, SECTOR_SIZE)) && Holds(g, ss[k := EMPTY])
    ensures f[k * SECTOR_SIZE] == ERASED ==> ss[k] == EMPTY
  {
    EmptyImage();
    assert (k + 1) * SECTOR_SIZE <= |f|;
    HoldsAfterSplice(f, ss, k, 0, Fill(ERASED, SECTOR_SIZE), EMPTY);
    g := Splice(f, k * SECTOR_SIZE, Fill(ERASED, SECTOR_SIZE));
    FirstByteTellsErased(ss[k]);
    SectorByte(f, k, 0);
  }

  /** Erase sector k unless its first byte already reads 0xFF. */
  method EraseIfUsed(cells: array<byte>, k: nat, ghost ss: seq<Sector>)
    requires Holds(cells[..], ss) && k < |ss|
    modifies cells
    ensures Holds(cells[..], ss[k := EMPTY])
  {
    ghost var erased := EraseSector(cells[..], ss, k);
    if cells[k * SECTOR_SIZE] != ERASED {
      EraseRange(cells, k * SECTOR_SIZE, SECTOR_SIZE);
      assert cells[..] == erased;
    } else {
      assert ss[k := EMPTY] == ss;
    }
  }

  /** Padding from the head to the end of its sector. */
  lemma SealHead(f: seq<byte>, l: Log) returns (g: seq<byte>)
    requires LogOk(l) && Holds(f, l.sectors)
    ensures HeadOffset(l) < SectorEnd(HeadOffset(l)) == (l.at + 1) * SECTOR_SIZE <= |f|
    ensures AllErased(f, HeadOffset(l), SectorEnd(HeadOffset(l)))
    ensures g == Splice(f, HeadOffset(l), Fill(0, SectorEnd(HeadOffset(l)) - HeadOffset(l))) && Holds(g, Sealed(l))
  {
    var cur := l.sectors[l.at];
    SealImage(cur);
    SectorOfOffset(l.at, Used(cur));
    ErasedInSector(f, l.sectors, l.at, Used(cur), SECTOR_SIZE);
    HoldsAfterSplice(f, l.sectors, l.at, Used(cur), Fill(0, SECTOR_SIZE - Used(cur)), cur.(sealed := true));
    g := Splice(f, HeadOffset(l), Fill(0, SECTOR_SIZE - Used(cur)));
  }

  /** The tail after the head has entered the sector at offset h. */
  function MovedTail(tail: nat, h: nat, size: nat): nat {
    var t := if tail >= h + SECTOR_SIZE then h + SECTOR_SIZE else tail;
    if t >= size then 0 else t
  }

  /** The byte-offset updates are the sector-number updates of Advance. */
  lemma AdvanceOffsets(l: Log)
    requires LogOk(l)
    ensures Advance(l).sectors == Sealed(l)[NextSector(l) := EMPTY]
    ensures var size := |l.sectors| * SECTOR_SIZE;
            var end := (l.at + 1) * SECTOR_SIZE;
            && NextSector(l) * SECTOR_SIZE == (if end >= size then 0 else end)
            && HeadOffset(Advance(l)) == NextSector(l) * SECTOR_SIZE
            && TailOffset(Advance(l)) == MovedTail(TailOffset(l), NextSector(l) * SECTOR_SIZE, size)
  {
  }

  /** Pad the head's sector, step to the next one (wrapping) and erase it. */
  method EnterNextSector(cells: array<byte>, head: nat, ghost l: Log) returns (next: nat)
    requires LogOk(l) && Holds(cells[..], l.sectors) && head == HeadOffset(l)
    modifies cells
    ensures Holds(cells[..], Advance(l).sectors)
    ensures next == NextSector(l) * SECTOR_SIZE
  {
    ghost var padded := SealHead(cells[..], l);
    AdvanceOffsets(l);
    ZeroPad(cells, head, SectorEnd(head) - head);
    assert cells[..] == padded;
    next := SectorEnd(head);
    if next >= cells.Length {
      next := 0;
    }
    assert next / SECTOR_SIZE == NextSector(l);
    EraseIfUsed(cells, next / SECTOR_SIZE, Sealed(l));
  }

  /** The byte-offset test for room is that of the abstract log. */
  lemma RoomInSector(l: Log, size: nat)
    requires LogOk(l)
    ensures HeadOffset(l) + size >= SectorEnd(HeadOffset(l)) <==> MustAdvance(l, size)
  {
    SectorOfOffset(l.at, Used(l.sectors[l.at]));
  }

  /** The room an entry is programmed into is erased. */
  lemma ErasedAtHead(f: seq<byte>, l: Log, size: nat)
    requires LogOk(l) && Holds(f, l.sectors) && !MustAdvance(l, size)
    ensures HeadOffset(l) + size <= |f|
    ensures AllErased(f, HeadOffset(l), HeadOffset(l) + size)
  {
    var s := l.sectors[l.at];
    SealImage(s);
    ErasedInSector(f, l.sectors, l.at, Used(s), Used(s) + size);
  }

  /** Programming the first k bytes of an entry at the head. */
  lemma ProgramAtHead(f: seq<byte>, l: Log, e: Entry, k: nat)
    requires LogOk(l) && Holds(f, l.sectors) && e.Fits() && !MustAdvance(l, e.Size())
    requires 1 <= k <= e.Size()
    ensures HeadOffset(l) + e.Size() <= |f|
    ensures Holds(Splice(f, HeadOffset(l), Encode(e)[..k]), Append(l, Torn(e, k)).sectors)
    ensures HeadOffset(Append(l, Torn(e, k))) == HeadOffset(l) + e.Size()
  {
    var s := l.sectors[l.at];
    AppendImage(s, e, k);
    ErasedAtHead(f, l, e.Size());
    HoldsAfterSplice(f, l.sectors, l.at, Used(s), Encode(e)[..k], Sector(s.entries + [Torn(e, k)], false));
  }

  /** The three program operations of one entry: length, payload, type. */
  method ProgramEntry(cells: array<byte>, head: nat, e: Entry)
    requires e.Fits() && head + e.Size() <= cells.Length
    requires AllErased(cells[..], head, head + e.Size())
    modifies cells
    ensures cells[..] == Splice(old(cells[..]), head, Encode(e))
  {
    var len := |e.payload| + 1;
    ghost var f := cells[..];
    SpliceTwice(f, head, [len], e.payload);
    SpliceTwice(f, head, [len] + e.payload, [e.kind]);
    ProgramFresh(cells, head, [len]);
    ProgramFresh(cells, head + 1, e.payload);
    assert cells[..] == Splice(f, head, [len] + e.payload);
    ProgramFresh(cells, head + len, [e.kind]);
  }

  // ---- The boot scan ----------------------------------------------------------

  /** Read the last byte of sector k. */
  method ReadIsFull(cells: array<byte>, n: nat, k: nat) returns (isFull: bool)
    requires cells.Length == n * SECTOR_SIZE && k < n
    ensures isFull == FullFlags(cells[..], n)[k]
  {
    assert (k + 1) * SECTOR_SIZE <= cells.Length;
    isFull := cells[(k + 1) * SECTOR_SIZE - 1] != ERASED;
  }

  method FindHeadSector(cells: array<byte>, n: nat) returns (k: nat)
    requires cells.Length == n * SECTOR_SIZE && n > 0
    ensures k == HeadSector(cells[..], n)
  {
    ghost var full := FullFlags(cells[..], n);
    var l, r := 0, n - 1;
    while l < r
      invariant 0 <= l <= r < n
      invariant FirstNonFull(full, l, r) == FirstNonFull(full, 0, n - 1)
    {
      var m := (l + r) / 2;
      var isFull := ReadIsFull(cells, n, m);
      if isFull {
        l := m + 1;
      } else {
        r := m;
      }
    }
    k := l;
  }

  method FindTailSector(cells: array<byte>, n: nat, head: nat) returns (k: nat)
    requires cells.Length == n * SECTOR_SIZE && n > 0
    ensures k == FirstFullAfter(FullFlags(cells[..], n), head, 1, n - 1, 0)
  {
    ghost var full := FullFlags(cells[..], n);
    ghost var goal := FirstFullAfter(full, head, 1, n - 1, 0);
    k := 0;
    var l, r := 1, n - 1;
    while l <= r
      invariant 1 <= l && 0 <= r < n && k < n
      invariant FirstFullAfter(full, head, l, r, k) == goal
      decreases r + 1 - l
    {
      var m := (l + r) / 2;
      var sector := Around(head, m, n);
      var isFull := ReadIsFull(cells, n, sector);
      FirstFullAfterRound(full, head, l, r, k, m, sector);
      if isFull {
        k := sector;
        r := m - 1;
      } else {
        l := m + 1;
      }
    }
  }

  method WalkToHead(cells: array<byte>, from: nat, limit: nat) returns (cursor: nat)
    requires limit <= cells.Length
    ensures cursor == Walk(cells[..], from, limit)
  {
    cursor := from;
    while cursor < limit
      invariant Walk(cells[..], cursor, limit) == Walk(cells[..], from, limit)
      decreases limit - cursor
    {
      var b := cells[cursor];
      if b == ERASED {
        break;
      } else if b == 0 {
        cursor := SectorEnd(cursor);
      } else {
        cursor := cursor + b + 1;
      }
    }
  }

  class LogStore {
    const cells: array<byte>
    var head: nat
    var tail: nat
    var readCursor: nat
    var initialized: bool
    var queue: seq<Entry>
    // The log the cells stand for, everything ever written to flash and where
    // the current lap starts in it, and everything accepted for writing.
    ghost var log: Log
    ghost var written: seq<Entry>
    ghost var lapStart: nat
    ghost var accepted: seq<Entry>

    /** The cells hold a well-formed log with the recorded history. */
    ghost predicate FlashValid()
      reads this, cells
    {
      && LogOk(log)
      && Holds(cells[..], log.sectors)
      && HistoryOk(log, written, lapStart)
    }

    /** The offsets in memory are those of the log on flash. */
    ghost predicate Ready()
      reads this, cells
    {
      && FlashValid()
      && initialized
      && head == HeadOffset(log)
      && tail == TailOffset(log)
    }

    /** Moreover the queue holds exactly what was accepted and not written. */
    ghost predicate Valid()
      reads this, cells
    {
      && Ready()
      && |queue| <= QUEUE_SIZE
      && AllFit(queue)
      && accepted == written + queue
    }

    constructor (cells: array<byte>, ghost n: nat)
      requires n > 0 && cells.Length == n * SECTOR_SIZE && AllErased(cells[..], 0, cells.Length)
      ensures this.cells == cells && FlashValid()
      ensures log == FreshLog(n) && written == [] && lapStart == 0
      ensures readCursor == 0 && queue == [] && !initialized
    {
      this.cells := cells;
      head, tail, readCursor, initialized, queue := 0, 0, 0, false, [];
      log, written, lapStart, accepted := FreshLog(n), [], 0, [];
      EmptyImage();
      FreshHistory(n);
      ErasedHolds(cells[..], n);
    }

    /** Pad the head's sector and move the head, and the tail out of its way. */
    method AdvanceHead()
      requires Ready()
      modifies this, cells
      ensures Ready() && log == Advance(old(log))
      ensures tail == if old(tail) > head then head + SECTOR_SIZE else old(tail)
      ensures old(tail) > head ==> Visible(log) == Retained(log)
      ensures written == old(written) && queue == old(queue) && accepted == old(accepted)
      ensures readCursor == old(readCursor)
    {
      TailAfterAdvance(log);
      AdvanceOffsets(log);
      AdvanceHistory(log, written, lapStart);
      head := EnterNextSector(cells, head, log);
      tail := MovedTail(tail, head, cells.Length);
      lapStart := LapStartAfter(log, written, lapStart);
      log := Advance(log);
    }

    /** Make sure the head's sector has room for `size` bytes. */
    method PrepareSector(size: nat)
      requires Ready()
      modifies this, cells
      ensures Ready() && log == Prepare(old(log), size)
      ensures written == old(written) && queue == old(queue) && accepted == old(accepted)
      ensures readCursor == old(readCursor)
    {
      RoomInSector(log, size);
      if head + size >= SectorEnd(head) {
        AdvanceHead();
      }
    }

    /** Program the first k bytes of an entry at the head, which has room. */
    method AppendAtHead(e: Entry, k: nat)
      requires Ready() && e.Fits() && !MustAdvance(log, e.Size()) && 1 <= k <= e.Size()
      modifies this, cells
      ensures Ready() && log == Append(old(log), Torn(e, k)) && written == old(written) + [Torn(e, k)]
      ensures queue == old(queue) && accepted == old(accepted) && readCursor == old(readCursor)
    {
      ErasedAtHead(cells[..], log, e.Size());
      ProgramAtHead(cells[..], log, e, k);
      AppendHistory(log, Torn(e, k), written, lapStart);
      if k == e.Size() {
        assert Encode(e)[..k] == Encode(e);
        ProgramEntry(cells, head, e);
      } else {
        ProgramFresh(cells, head, Encode(e)[..k]);
      }
      head := head + e.Size();
      log := Append(log, Torn(e, k));
      written := written + [Torn(e, k)];
    }

    /** The blocking write: pad and move on if the entry would reach the end of
        the sector, then program it at the head. */
    method WriteBlocking(e: Entry) returns (status: Status)
      requires initialized ==> Ready()
      modifies this, cells
      ensures status == if !old(initialized) then Fail else if !e.Fits() then InvalidLength else Ok
      ensures status != Ok ==> unchanged(this) && unchanged(cells)
      ensures status == Ok ==> Ready() && log == Write(old(log), e) && written == old(written) + [e]
      ensures status == Ok ==> Placed(old(log), log, e)
      ensures queue == old(queue) && accepted == old(accepted) && readCursor == old(readCursor)
    {
      if !initialized {
        return Fail;
      }
      if !e.Fits() {
        return InvalidLength;
      }
      WritePlaces(log, e);
      PrepareSector(e.Size());
      TornBytes(e, e.Size());
      AppendAtHead(e, e.Size());
      status := Ok;
    }

    /** A blocking write during which power fails after k bytes of the entry
        were programmed.  Everything held in memory is gone. */
    method WriteUntilPowerCut(e: Entry, k: nat)
      requires Ready() && e.Fits() && k <= e.Size()
      modifies this, cells
      ensures FlashValid() && !initialized && queue == [] && readCursor == 0
      ensures log == Cut(old(log), e, k)
      ensures written == old(written) + if k == 0 then [] else [Torn(e, k)]
    {
      PrepareSector(e.Size());
      if k > 0 {
        AppendAtHead(e, k);
      }
      LosePower();
    }

    /** Memory is lost; the cells stay. */
    method LosePower()
      requires FlashValid()
      modifies this
      ensures FlashValid() && log == old(log) && written == old(written)
      ensures !initialized && queue == [] && readCursor == 0
    {
      head, tail, readCursor, initialized, queue := 0, 0, 0, false, [];
    }

    /** The boot scan.  Head and tail come from the cells alone; when the head
        is recoverable they are those of the log that was written. */
    method LogInit(n: nat)
      requires n > 0 && cells.Length == n * SECTOR_SIZE
      modifies this
      ensures initialized && queue == [] && readCursor == old(readCursor)
      ensures head == RecoveredHead(cells[..], n) && tail == RecoveredTail(cells[..], n)
      ensures written == old(written)
      ensures old(FlashValid()) && HeadRecoverable(old(log)) ==> Valid() && log == Rebooted(old(log))
    {
      ScanOffsets(n);
      initialized := true;
      queue := [];
      AdoptRecovered(n);
    }

    /** Take the recovered offsets for the log that is on flash. */
    ghost method AdoptRecovered(n: nat)
      requires n > 0 && cells.Length == n * SECTOR_SIZE && initialized && queue == []
      requires head == RecoveredHead(cells[..], n) && tail == RecoveredTail(cells[..], n)
      modifies this`log, this`accepted
      ensures old(FlashValid()) && HeadRecoverable(old(log)) ==> Valid() && log == Rebooted(old(log))
    {
      if FlashValid() && HeadRecoverable(log) {
        assert |log.sectors| == n;
        Adoptable(cells[..], log, written, lapStart);
        log := Rebooted(log);
        assert FlashValid();
      }
      accepted := written;
    }

    method ScanOffsets(n: nat)
      requires n > 0 && cells.Length == n * SECTOR_SIZE
      modifies this`head, this`tail
      ensures head == RecoveredHead(cells[..], n) && tail == RecoveredTail(cells[..], n)
    {
      head, tail := 0, 0;
      var headSector := FindHeadSector(cells, n);
      var tailSector := FindTailSector(cells, n, headSector);
      var cursor := if headSector > 0 then (headSector - 1) * SECTOR_SIZE else 0;
      var limit := headSector * SECTOR_SIZE + SECTOR_SIZE;
      assert limit == (headSector + 1) * SECTOR_SIZE <= cells.Length;
      head := WalkToHead(cells, cursor, limit);
      tail := tailSector * SECTOR_SIZE;
    }

    /** Queue an entry for the writer task; never blocks. */
    method LogWrite(payload: seq<byte>, kind: byte) returns (status: Status)
      requires initialized ==> Valid()
      modifies this
      ensures status ==
              if !old(initialized) then Fail
              else if |payload| > MAX_PAYLOAD then InvalidLength
              else if kind == 0xFF then InvalidArg
              else if |old(queue)| == QUEUE_SIZE then NoMem
              else Ok
      ensures status != Ok ==> unchanged(this)
      ensures status == Ok ==> Valid() && accepted == old(accepted) + [Entry(payload, kind)]
      ensures log == old(log) && written == old(written)
    {
      if !initialized {
        return Fail;
      }
      if |payload| > MAX_PAYLOAD {
        return InvalidLength;
      }
      if kind == 0xFF {
        return InvalidArg;
      }
      if |queue| == QUEUE_SIZE {
        return NoMem;
      }
      var e := Entry(payload, kind);
      queue := queue + [e];
      accepted := accepted + [e];
      status := Ok;
    }

    /** One turn of the writer task: take the oldest queued entry, if any, and
        write it. */
    method WriterTurn() returns (wrote: bool)
      requires Valid()
      modifies this, cells
      ensures Valid() && wrote == (old(queue) != [])
      ensures accepted == old(accepted) && readCursor == old(readCursor)
      ensures !wrote ==> log == old(log) && written == old(written)
      ensures wrote ==>
                && written == old(written) + [old(queue)[0]] && queue == old(queue)[1..]
                && log == Write(old(log), old(queue)[0])
    {
      if queue == [] {
        return false;
      }
      var e := queue[0];
      assert written + queue == (written + [e]) + queue[1..];
      var status := WriteBlocking(e);
      queue := queue[1..];
      wrote := true;
    }

    method LogReadReset()
      modifies this`readCursor
      ensures forall hops ::
                ReadFrom(cells[..], head, tail, readCursor, hops) == ReadFrom(cells[..], head, tail, tail, hops)
    {
      readCursor := 0;
    }

    /** Read the entry at the cursor and move past it, skipping padding. */
    method LogRead(hops: nat) returns (o: Outcome)
      modifies this`readCursor
      ensures Step(o, readCursor) ==
              if initialized then ReadFrom(cells[..], head, tail, old(readCursor), hops)
              else Step(InvalidState, old(readCursor))
      decreases hops
    {
      if !initialized {
        return InvalidState;
      }
      if readCursor == 0 {
        readCursor := tail;
      }
      if readCursor == head {
        return NotFound;
      }
      if readCursor >= cells.Length {
        return ReadError;
      }
      var len := cells[readCursor];
      if len == ERASED {
        return NotFound;
      }
      if len == 0 {
        if hops == 0 {
          return RunAway;
        }
        var next := SectorEnd(readCursor);
        readCursor := if next >= cells.Length then 0 else next;
        o := LogRead(hops - 1);
        return;
      }
      if len > MAX_PAYLOAD + 1 {
        return InvalidSize;
      }
      if readCursor + len >= cells.Length {
        return ReadError;
      }
      o := Found(Entry(cells[readCursor + 1..readCursor + len], cells[readCursor + len]));
      readCursor := readCursor + len + 1;
      if readCursor >= cells.Length {
        readCursor := 0;
      }
    }
  }

  lemma {:induction false} Adoptable(f: seq<byte>, l: Log, written: seq<Entry>, lapStart: nat)
    requires LogOk(l) && Holds(f, l.sectors) && HistoryOk(l, written, lapStart) && HeadRecoverable(l)
    ensures Holds(f, Rebooted(l).sectors) && HistoryOk(Rebooted(l), written, lapStart)
    ensures RecoveredHead(f, |l.sectors|) == HeadOffset(Rebooted(l))
    ensures RecoveredTail(f, |l.sectors|) == TailOffset(Rebooted(l))
  {
    RecoveryIs(f, l);
    RebootedHistory(l, written, lapStart);
  }

  lemma ErasedHolds(f: seq<byte>, n: nat)
    requires n > 0 && |f| == n * SECTOR_SIZE && AllErased(f, 0, |f|)
    ensures Holds(f, FreshLog(n).sectors)
  {
    EmptyImage();
    forall k | 0 <= k < n
      ensures SectorAt(f, k) == Image(EMPTY)
    {
      assert (k + 1) * SECTOR_SIZE <= |f|;
    }
  }
}
