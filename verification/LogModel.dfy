// The log on flash: how an entry is laid out, what a sector holds, and the
// abstract log that the bytes, the head offset and the tail offset stand for.

module LogModel {
  import opened Flash

  const MAX_PAYLOAD: nat := 200

  /** One log entry; on flash it is [|payload| + 1][payload][kind]. */
  datatype Entry = Entry(payload: seq<byte>, kind: byte) {
    predicate Fits() { |payload| <= MAX_PAYLOAD }

    function Size(): nat { |payload| + 2 }
  }

  function Encode(e: Entry): (s: seq<byte>)
    requires e.Fits()
    ensures |s| == e.Size() && s[0] != 0 && s[0] != ERASED
  {
    [|e.payload| + 1] + e.payload + [e.kind]
  }

  ghost predicate AllFit(es: seq<Entry>) {
    forall i :: 0 <= i < |es| ==> es[i].Fits()
  }

  function EncodeAll(es: seq<Entry>): seq<byte>
    requires AllFit(es)
  {
    if es == [] then [] else Encode(es[0]) + EncodeAll(es[1..])
  }

  lemma ConcatAssoc<T>(a: seq<T>, b: seq<T>, c: seq<T>)
    ensures (a + b) + c == a + (b + c)
  {
  }

  lemma {:induction false} EncodeAllConcat(a: seq<Entry>, b: seq<Entry>)
    requires AllFit(a) && AllFit(b)
    ensures AllFit(a + b) && EncodeAll(a + b) == EncodeAll(a) + EncodeAll(b)
  {
    if a == [] {
      assert a + b == b;
    } else {
      assert (a + b)[0] == a[0] && (a + b)[1..] == a[1..] + b;
      EncodeAllConcat(a[1..], b);
      ConcatAssoc(Encode(a[0]), EncodeAll(a[1..]), EncodeAll(b));
    }
  }

  lemma EncodeAllSnoc(es: seq<Entry>, e: Entry)
    requires AllFit(es) && e.Fits()
    ensures AllFit(es + [e]) && EncodeAll(es + [e]) == EncodeAll(es) + Encode(e)
  {
    EncodeAllConcat(es, [e]);
    assert EncodeAll([e]) == Encode(e) + EncodeAll([]);
  }

  // ---- Sectors ------------------------------------------------------------

  /** The entries of one sector.  A sealed sector is zero from the last entry
      on; an open one is still erased there. */
  datatype Sector = Sector(entries: seq<Entry>, sealed: bool)

  function Used(s: Sector): nat
    requires AllFit(s.entries)
  {
    |EncodeAll(s.entries)|
  }

  /** Entries never reach the last byte of their sector. */
  ghost predicate SectorOk(s: Sector) {
    AllFit(s.entries) && Used(s) < SECTOR_SIZE
  }

  function Filler(sealed: bool): byte { if sealed then 0 else ERASED }

  function Image(s: Sector): (r: seq<byte>)
    requires SectorOk(s)
    ensures |r| == SECTOR_SIZE
  {
    EncodeAll(s.entries) + Fill(Filler(s.sealed), SECTOR_SIZE - Used(s))
  }

  const EMPTY: Sector := Sector([], false)

  lemma EmptyImage()
    ensures SectorOk(EMPTY) && Image(EMPTY) == Fill(ERASED, SECTOR_SIZE)
  {
  }

  /** The last byte of a sector says whether it was padded. */
  lemma LastByteTellsSealed(s: Sector)
    requires SectorOk(s)
    ensures Image(s)[SECTOR_SIZE - 1] != ERASED <==> s.sealed
  {
  }

  /** The first byte of a sector says whether all of it is erased, so looking
      at one byte before erasing is enough. */
  lemma FirstByteTellsErased(s: Sector)
    requires SectorOk(s)
    ensures Image(s)[0] == ERASED <==> Image(s) == Fill(ERASED, SECTOR_SIZE)
    ensures Image(s)[0] == ERASED <==> s == EMPTY
  {
    if s.entries != [] {
      assert Image(s)[0] == Encode(s.entries[0])[0];
    }
  }

  /** What an entry decodes to when only its first k bytes were programmed. */
  function Torn(e: Entry, k: nat): (r: Entry)
    requires e.Fits() && 1 <= k <= e.Size()
    ensures r.Size() == e.Size()
  {
    var body := Encode(e)[1..k] + Fill(ERASED, e.Size() - k);
    Entry(body[..|e.payload|], body[|e.payload|])
  }

  lemma TornBytes(e: Entry, k: nat)
    requires e.Fits() && 1 <= k <= e.Size()
    ensures Encode(Torn(e, k)) == Encode(e)[..k] + Fill(ERASED, e.Size() - k)
    ensures k == e.Size() ==> Torn(e, k) == e
  {
    var body := Encode(e)[1..k] + Fill(ERASED, e.Size() - k);
    assert body == body[..|e.payload|] + [body[|e.payload|]];
    assert Encode(e)[..k] == [Encode(e)[0]] + Encode(e)[1..k];
  }

  /** Programming the first k bytes of an entry into the erased part of an
      open sector leaves the sector of the (possibly torn) entry. */
  lemma AppendImage(s: Sector, e: Entry, k: nat)
    requires SectorOk(s) && !s.sealed && e.Fits() && Used(s) + e.Size() < SECTOR_SIZE
    requires 1 <= k <= e.Size()
    ensures var r := Sector(s.entries + [Torn(e, k)], false);
            && SectorOk(r) && Used(r) == Used(s) + e.Size()
            && Splice(Image(s), Used(s), Encode(e)[..k]) == Image(r)
  {
    TornBytes(e, k);
    EncodeAllSnoc(s.entries, Torn(e, k));
    assert Image(s)[..Used(s)] == EncodeAll(s.entries);
    assert Image(s)[Used(s) + k..] == Fill(ERASED, SECTOR_SIZE - Used(s) - k);
    assert Fill(ERASED, SECTOR_SIZE - Used(s) - k)
        == Fill(ERASED, e.Size() - k) + Fill(ERASED, SECTOR_SIZE - Used(s) - e.Size());
  }

  /** Zero-padding the erased part of an open sector. */
  lemma SealImage(s: Sector)
    requires SectorOk(s) && !s.sealed
    ensures AllErased(Image(s), Used(s), SECTOR_SIZE)
    ensures Splice(Image(s), Used(s), Fill(0, SECTOR_SIZE - Used(s))) == Image(s.(sealed := true))
  {
    assert Image(s)[..Used(s)] == EncodeAll(s.entries);
  }

  // ---- Finding entries in the bytes ----------------------------------------

  /** Where entry i starts. */
  function Offset(es: seq<Entry>, i: nat): nat
    requires AllFit(es) && i <= |es|
  {
    |EncodeAll(es[..i])|
  }

  lemma EntryAt(es: seq<Entry>, i: nat)
    requires AllFit(es) && i < |es|
    ensures Offset(es, i + 1) == Offset(es, i) + es[i].Size() <= |EncodeAll(es)|
    ensures EncodeAll(es)[Offset(es, i)..Offset(es, i + 1)] == Encode(es[i])
  {
    assert es[..i + 1] == es[..i] + [es[i]];
    EncodeAllSnoc(es[..i], es[i]);
    assert es == es[..i + 1] + es[i + 1..];
    EncodeAllConcat(es[..i + 1], es[i + 1..]);
  }

  lemma OffsetEnds(es: seq<Entry>)
    requires AllFit(es)
    ensures Offset(es, 0) == 0 && Offset(es, |es|) == |EncodeAll(es)|
  {
    assert es[..|es|] == es;
  }

  // ---- The abstract log ---------------------------------------------------

  /** sectors[at] is the one being written; wrapped once the head has passed
      the end of the partition; tailSector is where the visible log begins. */
  datatype Log = Log(sectors: seq<Sector>, at: nat, wrapped: bool, tailSector: nat)

  ghost predicate LogOk(l: Log) {
    && l.at < |l.sectors|
    && (forall k :: 0 <= k < |l.sectors| ==> SectorOk(l.sectors[k]))
    && !l.sectors[l.at].sealed
    && (forall k :: 0 <= k < l.at ==> l.sectors[k].sealed)
    && (forall k :: l.at < k < |l.sectors| ==>
          if l.wrapped then l.sectors[k].sealed else l.sectors[k] == EMPTY)
    && l.tailSector < |l.sectors|
    && (!l.wrapped ==> l.tailSector <= l.at)
  }

  function HeadOffset(l: Log): nat
    requires LogOk(l)
  {
    l.at * SECTOR_SIZE + Used(l.sectors[l.at])
  }

  function TailOffset(l: Log): nat {
    l.tailSector * SECTOR_SIZE
  }

  /** The bytes f are those of the sectors ss. */
  ghost predicate Holds(f: seq<byte>, ss: seq<Sector>) {
    && |f| == |ss| * SECTOR_SIZE
    && forall k {:trigger ss[k]} :: 0 <= k < |ss| ==> SectorOk(ss[k]) && SectorAt(f, k) == Image(ss[k])
  }

  lemma HoldsAfterSplice(f: seq<byte>, ss: seq<Sector>, k: nat, off: nat, buf: seq<byte>, s: Sector)
    requires Holds(f, ss) && k < |ss| && off + |buf| <= SECTOR_SIZE
    requires SectorOk(s) && Splice(Image(ss[k]), off, buf) == Image(s)
    ensures k * SECTOR_SIZE + off + |buf| <= |f|
    ensures Holds(Splice(f, k * SECTOR_SIZE + off, buf), ss[k := s])
  {
    assert (k + 1) * SECTOR_SIZE <= |f|;
    SpliceIsLocal(f, k, off, buf);
  }

  lemma ErasedInSector(f: seq<byte>, ss: seq<Sector>, k: nat, from: nat, to: nat)
    requires Holds(f, ss) && k < |ss| && from <= to <= SECTOR_SIZE
    requires AllErased(Image(ss[k]), from, to)
    ensures k * SECTOR_SIZE + to <= |f|
    ensures AllErased(f, k * SECTOR_SIZE + from, k * SECTOR_SIZE + to)
  {
    assert (k + 1) * SECTOR_SIZE <= |f|;
    forall i | k * SECTOR_SIZE + from <= i < k * SECTOR_SIZE + to
      ensures f[i] == ERASED
    {
      SectorByte(f, k, i - k * SECTOR_SIZE);
      assert Image(ss[k])[i - k * SECTOR_SIZE] == ERASED;
    }
  }

  lemma PrefixSlice(a: seq<byte>, b: seq<byte>, c: nat, d: nat)
    requires c <= d <= |a|
    ensures (a + b)[c..d] == a[c..d]
  {
  }

  /** The pieces of an encoded entry. */
  lemma EncodedParts(f: seq<byte>, at: nat, e: Entry)
    requires e.Fits() && at + e.Size() <= |f| && f[at..at + e.Size()] == Encode(e)
    ensures f[at] == |e.payload| + 1
    ensures f[at + 1..at + f[at]] == e.payload
    ensures f[at + f[at]] == e.kind
  {
    var enc := f[at..at + e.Size()];
    var len := |e.payload| + 1;
    assert f[at] == enc[0] == len;
    assert f[at + len] == enc[len] == e.kind;
    SliceOfSlice(f, at, at + e.Size(), 1, len);
    assert Encode(e)[1..len] == e.payload;
  }

  /** Entry i of sector k, read back from the bytes. */
  lemma EntryOnFlash(f: seq<byte>, ss: seq<Sector>, k: nat, i: nat)
    requires Holds(f, ss) && k < |ss| && i < |ss[k].entries|
    ensures var es := ss[k].entries;
            var at := k * SECTOR_SIZE + Offset(es, i);
            && Offset(es, i + 1) == Offset(es, i) + es[i].Size() < SECTOR_SIZE
            && at + es[i].Size() <= |f|
            && f[at..at + es[i].Size()] == Encode(es[i])
  {
    var es := ss[k].entries;
    var at := k * SECTOR_SIZE + Offset(es, i);
    EntryAt(es, i);
    assert (k + 1) * SECTOR_SIZE <= |f|;
    SliceOfSlice(f, k * SECTOR_SIZE, (k + 1) * SECTOR_SIZE, Offset(es, i), Offset(es, i + 1));
    PrefixSlice(EncodeAll(es), Fill(Filler(ss[k].sealed), SECTOR_SIZE - Used(ss[k])), Offset(es, i), Offset(es, i + 1));
  }

  /** The byte after the last entry of sector k. */
  lemma FillerOnFlash(f: seq<byte>, ss: seq<Sector>, k: nat)
    requires Holds(f, ss) && k < |ss|
    ensures var at := k * SECTOR_SIZE + Used(ss[k]);
            at < (k + 1) * SECTOR_SIZE <= |f| && f[at] == Filler(ss[k].sealed)
  {
    assert (k + 1) * SECTOR_SIZE <= |f|;
    SectorByte(f, k, Used(ss[k]));
  }

  function Flatten(ss: seq<Sector>): seq<Entry> {
    if ss == [] then [] else ss[0].entries + Flatten(ss[1..])
  }

  lemma {:induction false} FlattenConcat(a: seq<Sector>, b: seq<Sector>)
    ensures Flatten(a + b) == Flatten(a) + Flatten(b)
  {
    if a == [] {
      assert a + b == b;
    } else {
      assert (a + b)[1..] == a[1..] + b;
      FlattenConcat(a[1..], b);
    }
  }

  /** The sectors from the tail round to the head. */
  function VisibleSectors(l: Log): seq<Sector>
    requires LogOk(l)
  {
    if l.tailSector <= l.at then l.sectors[l.tailSector..l.at + 1]
    else l.sectors[l.tailSector..] + l.sectors[..l.at + 1]
  }

  /** The log a reader is meant to see. */
  function Visible(l: Log): seq<Entry>
    requires LogOk(l)
  {
    Flatten(VisibleSectors(l))
  }

  /** Everything still on flash, oldest sector first. */
  function Retained(l: Log): seq<Entry>
    requires LogOk(l)
  {
    Flatten(l.sectors[l.at + 1..]) + Flatten(l.sectors[..l.at + 1])
  }

  // ---- What one write does to the abstract log ----------------------------

  predicate MustAdvance(l: Log, size: nat)
    requires LogOk(l)
  {
    Used(l.sectors[l.at]) + size >= SECTOR_SIZE
  }

  function NextSector(l: Log): (k: nat)
    requires LogOk(l)
    ensures k < |l.sectors|
  {
    if l.at + 1 == |l.sectors| then 0 else l.at + 1
  }

  function Sealed(l: Log): seq<Sector>
    requires LogOk(l)
  {
    l.sectors[l.at := l.sectors[l.at].(sealed := true)]
  }

  /** Pad the current sector, enter the next one and erase it. */
  function Advance(l: Log): (r: Log)
    requires LogOk(l)
    ensures LogOk(r) && r.sectors[r.at] == EMPTY && |r.sectors| == |l.sectors|
  {
    var next := NextSector(l);
    var t := if l.tailSector >= next + 1 then next + 1 else l.tailSector;
    EmptyImage();
    Log(Sealed(l)[next := EMPTY], next, l.wrapped || l.at + 1 == |l.sectors|,
        if t >= |l.sectors| then 0 else t)
  }

  /** Make room for `size` bytes. */
  function Prepare(l: Log, size: nat): (r: Log)
    requires LogOk(l)
    ensures LogOk(r) && |r.sectors| == |l.sectors|
    ensures size < SECTOR_SIZE ==> !MustAdvance(r, size)
  {
    if MustAdvance(l, size) then Advance(l) else l
  }

  /** Append to the current sector, which has room. */
  function Append(l: Log, e: Entry): (r: Log)
    requires LogOk(l) && e.Fits() && !MustAdvance(l, e.Size())
    ensures LogOk(r) && |r.sectors| == |l.sectors|
  {
    EncodeAllSnoc(l.sectors[l.at].entries, e);
    l.(sectors := l.sectors[l.at := Sector(l.sectors[l.at].entries + [e], false)])
  }

  function Write(l: Log, e: Entry): (r: Log)
    requires LogOk(l) && e.Fits()
    ensures LogOk(r) && |r.sectors| == |l.sectors|
  {
    Append(Prepare(l, e.Size()), e)
  }

  /** The log after a write that lost power after programming k bytes. */
  function Cut(l: Log, e: Entry, k: nat): (r: Log)
    requires LogOk(l) && e.Fits() && k <= e.Size()
    ensures LogOk(r) && |r.sectors| == |l.sectors|
  {
    if k == 0 then Prepare(l, e.Size()) else Append(Prepare(l, e.Size()), Torn(e, k))
  }

  /** The log of a freshly erased partition of n sectors. */
  function FreshLog(n: nat): (l: Log)
    requires n > 0
    ensures LogOk(l)
  {
    EmptyImage();
    Log(seq(n, _ => EMPTY), 0, false, 0)
  }
}
