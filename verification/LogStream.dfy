// The /log download: which byte range is streamed, in chunks through the
// shared response buffer, and what the host makes of it.

module LogStream {
  import opened Flash
  import opened LogModel
  import opened LogHistory
  import opened LogParser

  const BUFFER_SIZE: nat := 4096

  /** The log bytes from tail round to head. */
  function StreamBytes(f: seq<byte>, tail: nat, head: nat): seq<byte>
    requires tail <= |f| && head <= |f|
  {
    if tail <= head then f[tail..head] else f[tail..] + f[..head]
  }

  /** Copy `len` bytes of the partition into the front of the buffer. */
  method ReadInto(cells: array<byte>, off: nat, buffer: array<byte>, len: nat)
    requires cells != buffer && off + len <= cells.Length && len <= buffer.Length
    modifies buffer
    ensures buffer[..len] == cells[off..off + len]
  {
    for i := 0 to len
      invariant buffer[..i] == cells[off..off + i]
    {
      buffer[i] := cells[off + i];
    }
  }

  /** Send [from, to) in buffer-sized chunks; `sent` is what the peer gets. */
  method StreamPartitionRange(cells: array<byte>, buffer: array<byte>, from: nat, to: nat)
    returns (sent: seq<byte>)
    requires cells != buffer && buffer.Length == BUFFER_SIZE && from <= to <= cells.Length
    modifies buffer
    ensures sent == cells[from..to]
  {
    sent := [];
    var offset := from;
    while offset < to
      invariant from <= offset <= to
      invariant sent == cells[from..offset]
    {
      var len := if BUFFER_SIZE <= to - offset then BUFFER_SIZE else to - offset;
      ReadInto(cells, offset, buffer, len);
      sent := sent + buffer[..len];
      offset := offset + len;
    }
  }

  /** The range part of the handler: `requested` is the client's tail, negative
      when it sent none.  The announced size is the number of bytes sent. */
  method LogHandler(cells: array<byte>, buffer: array<byte>, logTail: nat, logHead: nat, requested: int)
    returns (tail: nat, head: nat, logDataSize: int, body: seq<byte>)
    requires cells != buffer && buffer.Length == BUFFER_SIZE
    requires logTail <= cells.Length && logHead <= cells.Length
    modifies buffer
    ensures head == logHead
    ensures tail == if 0 <= requested < cells.Length then requested else logTail
    ensures body == StreamBytes(cells[..], tail, head)
    ensures logDataSize == |body|
  {
    head := logHead;
    if requested < 0 || requested >= cells.Length {
      tail := logTail;
    } else {
      tail := requested;
    }
    if tail == head {
      logDataSize := 0;
    } else if tail < head {
      logDataSize := head - tail;
    } else {
      logDataSize := (cells.Length - tail) + head;
    }
    body := [];
    if tail < head {
      body := StreamPartitionRange(cells, buffer, tail, head);
    } else if tail > head {
      body := StreamPartitionRange(cells, buffer, tail, cells.Length);
      var rest := StreamPartitionRange(cells, buffer, 0, head);
      body := body + rest;
    }
  }

  // ---- The streamed bytes are a sector-aligned stream ------------------------

  /** The padded sectors a full download starts with. */
  function StreamedSectors(l: Log): seq<Sector>
    requires LogOk(l)
  {
    if l.tailSector <= l.at then l.sectors[l.tailSector..l.at]
    else l.sectors[l.tailSector..] + l.sectors[..l.at]
  }

  /** data is the padded sectors followed by the entries of the open one. */
  ghost predicate Streamed(data: seq<byte>, l: Log)
    requires LogOk(l)
  {
    IsStream(data, StreamedSectors(l), l.sectors[l.at].entries)
  }

  lemma VisibleIsStreamed(l: Log)
    requires LogOk(l)
    ensures Visible(l) == Flatten(StreamedSectors(l)) + l.sectors[l.at].entries
  {
    assert VisibleSectors(l) == StreamedSectors(l) + [l.sectors[l.at]];
    FlattenSnoc(StreamedSectors(l), l.sectors[l.at]);
  }

  lemma HeadSectorPrefix(f: seq<byte>, l: Log)
    requires LogOk(l) && Holds(f, l.sectors)
    ensures l.at * SECTOR_SIZE <= HeadOffset(l) <= |f|
    ensures f[l.at * SECTOR_SIZE..HeadOffset(l)] == EncodeAll(l.sectors[l.at].entries)
  {
    assert (l.at + 1) * SECTOR_SIZE <= |f|;
    EntriesOfSector(f, l.at, l.sectors[l.at]);
  }

  /** Cutting a stream out of the partition at sector boundaries. */
  lemma SectorOfSlice(f: seq<byte>, first: nat, to: nat, j: nat)
    requires (first + j + 1) * SECTOR_SIZE <= to <= |f|
    ensures (j + 1) * SECTOR_SIZE <= to - first * SECTOR_SIZE
    ensures SectorAt(f[first * SECTOR_SIZE..to], j) == SectorAt(f, first + j)
  {
    SliceOfSlice(f, first * SECTOR_SIZE, to, j * SECTOR_SIZE, (j + 1) * SECTOR_SIZE);
  }

  lemma SectorOfConcat(a: seq<byte>, b: seq<byte>, m: nat, j: nat)
    requires |a| == m * SECTOR_SIZE && (j + 1) * SECTOR_SIZE <= |a + b|
    ensures j < m ==> SectorAt(a + b, j) == SectorAt(a, j)
    ensures j >= m ==> (j - m + 1) * SECTOR_SIZE <= |b| && SectorAt(a + b, j) == SectorAt(b, j - m)
  {
  }

  lemma StreamWithinLap(f: seq<byte>, l: Log)
    requires LogOk(l) && Holds(f, l.sectors) && l.tailSector <= l.at
    ensures TailOffset(l) <= HeadOffset(l) <= |f|
    ensures Streamed(f[TailOffset(l)..HeadOffset(l)], l)
  {
    HeadSectorPrefix(f, l);
    var data := f[TailOffset(l)..HeadOffset(l)];
    var ss := StreamedSectors(l);
    assert |ss| * SECTOR_SIZE == l.at * SECTOR_SIZE - TailOffset(l);
    SliceOfSlice(f, TailOffset(l), HeadOffset(l), |ss| * SECTOR_SIZE, |data|);
    forall k | 0 <= k < |ss|
      ensures SectorOk(ss[k]) && SectorAt(data, k) == Image(ss[k])
    {
      assert ss[k] == l.sectors[l.tailSector + k];
      SectorOfSlice(f, l.tailSector, HeadOffset(l), k);
    }
  }

  lemma StreamAcrossLaps(f: seq<byte>, l: Log)
    requires LogOk(l) && Holds(f, l.sectors) && l.tailSector > l.at
    ensures TailOffset(l) <= |f| && HeadOffset(l) <= |f|
    ensures Streamed(f[TailOffset(l)..] + f[..HeadOffset(l)], l)
  {
    HeadSectorPrefix(f, l);
    var n := |l.sectors|;
    var m := n - l.tailSector;
    var a, b := f[TailOffset(l)..], f[..HeadOffset(l)];
    var data := a + b;
    var ss := StreamedSectors(l);
    assert |ss| == m + l.at && |a| == m * SECTOR_SIZE;
    assert data[|ss| * SECTOR_SIZE..] == b[l.at * SECTOR_SIZE..] == f[l.at * SECTOR_SIZE..HeadOffset(l)];
    forall k | 0 <= k < |ss|
      ensures SectorOk(ss[k]) && SectorAt(data, k) == Image(ss[k])
    {
      SectorOfConcat(a, b, m, k);
      if k < m {
        assert ss[k] == l.sectors[l.tailSector + k];
        SectorOfSlice(f, l.tailSector, |f|, k);
        assert f[l.tailSector * SECTOR_SIZE..|f|] == a;
      } else {
        assert ss[k] == l.sectors[k - m];
        SectorOfSlice(f, 0, HeadOffset(l), k - m);
      }
    }
  }

  lemma StreamIsAligned(f: seq<byte>, l: Log)
    requires LogOk(l) && Holds(f, l.sectors)
    ensures TailOffset(l) <= |f| && HeadOffset(l) <= |f|
    ensures Streamed(StreamBytes(f, TailOffset(l), HeadOffset(l)), l)
  {
    if l.tailSector <= l.at {
      StreamWithinLap(f, l);
    } else {
      StreamAcrossLaps(f, l);
      HeadSectorPrefix(f, l);
    }
  }

  lemma StreamedAreSealed(l: Log)
    requires LogOk(l)
    ensures forall k :: 0 <= k < |StreamedSectors(l)| ==> StreamedSectors(l)[k].sealed
  {
  }

  lemma AlignedConcat(a: seq<Entry>, b: seq<Entry>)
    requires AllAligned(a + b)
    ensures AllAligned(a) && AllAligned(b)
  {
    assert forall i :: 0 <= i < |a| ==> a[i] == (a + b)[i];
    assert forall i :: 0 <= i < |b| ==> b[i] == (a + b)[|a| + i];
  }

  lemma {:induction false} AlignedParts(ss: seq<Sector>, last: seq<Entry>)
    requires AllAligned(Flatten(ss) + last)
    ensures AllAligned(last)
    ensures forall k :: 0 <= k < |ss| ==> AllAligned(ss[k].entries)
  {
    AlignedConcat(Flatten(ss), last);
    if ss != [] {
      assert Flatten(ss) + last == ss[0].entries + (Flatten(ss[1..]) + last);
      AlignedConcat(ss[0].entries, Flatten(ss[1..]) + last);
      AlignedParts(ss[1..], last);
      assert forall k :: 1 <= k < |ss| ==> ss[k] == ss[1..][k - 1];
    }
  }

  lemma {:induction false} StreamRecords(f: seq<byte>, l: Log)
    requires LogOk(l) && Holds(f, l.sectors) && AllAligned(Visible(l))
    ensures TailOffset(l) <= |f| && HeadOffset(l) <= |f|
    ensures ParseFrom(StreamBytes(f, TailOffset(l), HeadOffset(l)), 0) == ParsedAs(Visible(l))
  {
    var ss, last := StreamedSectors(l), l.sectors[l.at].entries;
    VisibleIsStreamed(l);
    StreamIsAligned(f, l);
    StreamedAreSealed(l);
    AlignedParts(ss, last);
    ParseStream(StreamBytes(f, TailOffset(l), HeadOffset(l)), ss, last, 0);
    assert ss[0..] == ss;
  }

  /** The records are one for each entry, in order: the unambiguous ones come
      back with their type and payload, those the firmware emits also with their
      shape. */
  ghost predicate Decoded(records: seq<Parsed>, es: seq<Entry>) {
    && |records| == |es|
    && forall i :: 0 <= i < |es| ==>
         && DecodesAs(records[i], es[i])
         && (Unambiguous(es[i]) ==> Recovers(records[i], es[i]))
         && (Emitted(es[i]) ==> Recovers(records[i], es[i]) && ShapeTellsType(records[i]))
  }

  lemma ParsedAsDecodes(es: seq<Entry>)
    requires AllAligned(es)
    ensures Decoded(ParsedAs(es), es)
  {
    forall i | 0 <= i < |es|
      ensures DecodesAs(ParsedAs(es)[i], es[i])
      ensures Emitted(es[i]) ==> Recovers(ParsedAs(es)[i], es[i]) && ShapeTellsType(ParsedAs(es)[i])
    {
      RecordIs(es[i]);
    }
  }

  /** Firmware to host: for every log whose visible entries are aligned, the
      bytes of a full download decode to exactly one record for each visible
      entry, in order; the unambiguous ones come back with their type and their
      payload. */
  lemma {:induction false} RoundTrip(f: seq<byte>, l: Log)
    requires LogOk(l) && Holds(f, l.sectors) && AllAligned(Visible(l))
    ensures TailOffset(l) <= |f| && HeadOffset(l) <= |f|
    ensures Decoded(ParseFrom(StreamBytes(f, TailOffset(l), HeadOffset(l)), 0), Visible(l))
  {
    StreamRecords(f, l);
    ParsedAsDecodes(Visible(l));
  }
}
