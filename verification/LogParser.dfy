// The host-side decoder of the raw log bytes (current firmware layout: the
// type byte comes last).

module LogParser {
  import opened Flash
  import opened LogModel

  const MAX_FSM_STATE: nat := 15
  const TYPE_BAT: byte := 100
  const TYPE_CRASH: byte := 101
  const TYPE_BOOT: byte := 102
  const TYPE_TIME_SET: byte := 103

  predicate IsFsmType(t: int) { 0 <= t <= MAX_FSM_STATE }

  predicate IsValidEntryType(t: int) {
    IsFsmType(t) || t == TYPE_BAT || t == TYPE_CRASH || t == TYPE_BOOT || t == TYPE_TIME_SET
  }

  // How a decoded entry is classified; Malformed is the parse-error record of
  // an entry whose payload is too short for its type.
  datatype Shape = Fsm | Bat | Crash | Boot | TimeSet | Unknown | Malformed

  datatype Parsed = Parsed(shape: Shape, kind: byte, payload: seq<byte>)

  function Classify(kind: byte, payload: seq<byte>): Parsed {
    if kind <= MAX_FSM_STATE then Parsed(if |payload| < 19 then Malformed else Fsm, kind, payload)
    else if kind == TYPE_BAT then Parsed(if |payload| < 12 then Malformed else Bat, kind, payload)
    else if kind == TYPE_CRASH then Parsed(if |payload| < 9 then Malformed else Crash, kind, payload)
    else if kind == TYPE_BOOT then Parsed(if |payload| < 9 then Malformed else Boot, kind, payload)
    else if kind == TYPE_TIME_SET then Parsed(if |payload| < 8 then Malformed else TimeSet, kind, payload)
    else Parsed(Unknown, kind, payload)
  }

  predicate PlausibleLength(b: byte) { b != 0 && b != ERASED && b < 250 }

  /** The guess whether the entry of stored length len at i carries a type
      byte, from the two bytes that follow its payload. */
  predicate HasTypeByte(data: seq<byte>, i: nat)
    requires i < |data| && i + data[i] < |data|
  {
    var len := data[i];
    var end := i + len;
    if end + 1 >= |data| then true
    else if !PlausibleLength(data[end]) then true
    else if !IsValidEntryType(data[end]) then false
    else !(data[end] == len && !PlausibleLength(data[end + 1]))
  }

  /** The entry at i and where the next one starts. */
  function ParseOne(data: seq<byte>, i: nat): (r: (Parsed, nat))
    requires i < |data| && data[i] != 0 && i + data[i] < |data|
    ensures i < r.1
  {
    var len := data[i];
    var end := i + len;
    if !HasTypeByte(data, i) then (Classify(0, data[i + 1..end]), end)
    else if !IsValidEntryType(data[end]) && IsValidEntryType(data[i + 1]) then
      (Classify(data[i + 1], data[i + 2..end + 1]), end + 1)
    else (Classify(data[end], data[i + 1..end]), end + 1)
  }

  /** The whole decoder, from offset i on. */
  function ParseFrom(data: seq<byte>, i: nat): seq<Parsed>
    decreases |data| - i
  {
    if i >= |data| then []
    else if data[i] == ERASED || data[i] == 0 then ParseFrom(data, SectorEnd(i))
    else if i + data[i] >= |data| then []
    else
      var r := ParseOne(data, i);
      [r.0] + ParseFrom(data, r.1)
  }

  method ParseEntries(data: seq<byte>) returns (entries: seq<Parsed>)
    ensures entries == ParseFrom(data, 0)
  {
    entries := [];
    var i := 0;
    while i < |data|
      invariant ParseFrom(data, 0) == entries + ParseFrom(data, i)
      decreases |data| - i
    {
      if data[i] == ERASED || data[i] == 0 {
        i := SectorEnd(i);
        continue;
      }
      if i + data[i] >= |data| {
        break;
      }
      var r := ParseOne(data, i);
      assert ParseFrom(data, i) == [r.0] + ParseFrom(data, r.1);
      entries := entries + [r.0];
      i := r.1;
    }
  }

  // ---- Which entries the decoder recovers ------------------------------------

  /** Kinds that cannot be taken for the length byte of a next entry. */
  const NO_LENGTH: byte := 250

  /** Entries that take up exactly their own bytes in the decoder's eyes,
      whatever follows. */
  predicate Aligned(e: Entry) {
    e.Fits() && (e.kind < NO_LENGTH ==> IsValidEntryType(e.kind) && e.kind != |e.payload| + 1)
  }

  /** The first payload byte is taken for the type. */
  predicate ReadTypeFirst(e: Entry) {
    !IsValidEntryType(e.kind) && e.payload != [] && IsValidEntryType(e.payload[0])
  }

  /** Entries that are also recovered as what they are. */
  predicate Unambiguous(e: Entry) {
    Aligned(e) && !ReadTypeFirst(e)
  }

  /** What an aligned entry decodes to. */
  function RecordOf(e: Entry): Parsed {
    if ReadTypeFirst(e) then Classify(e.payload[0], e.payload[1..] + [e.kind]) else Classify(e.kind, e.payload)
  }

  /** The record r is the entry e: its type and exactly its payload. */
  predicate Recovers(r: Parsed, e: Entry) {
    r.kind == e.kind && r.payload == e.payload
  }

  /** The shape says which of the firmware's types a record is of. */
  predicate ShapeTellsType(r: Parsed) {
    && (r.shape == Fsm <==> r.kind <= 15)
    && (r.shape == Bat <==> r.kind == 100)
    && (r.shape == Crash <==> r.kind == 101)
    && (r.shape == Boot <==> r.kind == 102)
    && (r.shape == TimeSet <==> r.kind == 103)
    && r.shape != Unknown && r.shape != Malformed
  }

  /** The bytes a payload of a known type needs. */
  predicate LongEnough(kind: byte, len: nat) {
    && (kind <= 15 ==> len >= 19) && (kind == 100 ==> len >= 12)
    && (kind in {101, 102} ==> len >= 9) && (kind == 103 ==> len >= 8)
  }

  /** For any record of any bytes: unknown exactly for types that are none of
      the firmware's, a parse error exactly for payloads too short for their
      type, and the type's own shape otherwise. */
  lemma RecordShape(data: seq<byte>, i: nat)
    requires i < |data| && data[i] != 0 && i + data[i] < |data|
    ensures var r := ParseOne(data, i).0;
            var known := r.kind <= 15 || 100 <= r.kind <= 103;
            && (r.shape == Unknown <==> !known)
            && (r.shape == Malformed <==> known && !LongEnough(r.kind, |r.payload|))
            && (known && LongEnough(r.kind, |r.payload|) ==> ShapeTellsType(r))
  {
  }

  /** The record r is what the decoder makes of an aligned entry: the entry
      itself when it is unambiguous; otherwise its first payload byte is taken
      for the type, and the rest with its type byte for the payload. */
  predicate DecodesAs(r: Parsed, e: Entry) {
    if ReadTypeFirst(e) then r.kind == e.payload[0] && r.payload == e.payload[1..] + [e.kind] else Recovers(r, e)
  }

  lemma RecordIs(e: Entry)
    requires Aligned(e)
    ensures DecodesAs(RecordOf(e), e)
    ensures Emitted(e) ==> Recovers(RecordOf(e), e) && ShapeTellsType(RecordOf(e))
  {
  }

  /** The bytes at i are those of e. */
  ghost predicate Starts(data: seq<byte>, i: nat, e: Entry)
    requires e.Fits()
  {
    i + e.Size() <= |data| && data[i..i + e.Size()] == Encode(e)
  }

  lemma AlignedOne(data: seq<byte>, i: nat, e: Entry)
    requires Aligned(e) && Starts(data, i, e)
    ensures data[i] != 0 && data[i] != ERASED && i + data[i] < |data|
    ensures ParseOne(data, i) == (RecordOf(e), i + e.Size())
  {
    EncodedParts(data, i, e);
    var end := i + data[i];
    assert data[i + 1..end] == e.payload;
    if e.payload != [] {
      assert data[i + 1] == e.payload[0];
      assert data[i + 2..end + 1] == e.payload[1..] + [e.kind];
    }
  }

  /** An aligned entry decodes to its record, wherever it stands and whatever
      follows. */
  lemma ParseEntry(data: seq<byte>, i: nat, e: Entry)
    requires Aligned(e) && Starts(data, i, e)
    ensures ParseFrom(data, i) == [RecordOf(e)] + ParseFrom(data, i + e.Size())
  {
    AlignedOne(data, i, e);
  }

  /** e followed by `rest` decodes to e itself and then goes on with `rest`. */
  ghost predicate DecodesBefore(e: Entry, rest: seq<byte>)
    requires e.Fits()
  {
    var data := Encode(e) + rest;
    var records := ParseFrom(data, 0);
    records != [] && Recovers(records[0], e) && records[1..] == ParseFrom(data, e.Size())
  }

  lemma WrongFirst(e: Entry, rest: seq<byte>)
    requires e.Fits()
    requires !Recovers(ParseOne(Encode(e) + rest, 0).0, e)
    ensures !DecodesBefore(e, rest)
  {
    var data := Encode(e) + rest;
    assert data[0] == |e.payload| + 1;
    assert ParseFrom(data, 0)[0] == ParseOne(data, 0).0;
  }

  /** The decoder recovers an entry, whatever bytes follow it, if and only if it
      is unambiguous. */
  lemma DecodesToItselfIff(e: Entry)
    requires e.Fits()
    ensures (forall rest :: DecodesBefore(e, rest)) <==> Unambiguous(e)
  {
    if Unambiguous(e) {
      forall rest
        ensures DecodesBefore(e, rest)
      {
        var data := Encode(e) + rest;
        assert data[0..e.Size()] == Encode(e);
        ParseEntry(data, 0, e);
      }
    } else {
      WrongFirst(e, [0]);
    }
  }

  // ---- Decoding what the firmware wrote --------------------------------------

  /** The entries the firmware emits. */
  predicate Emitted(e: Entry) {
    || (e.kind <= MAX_FSM_STATE && |e.payload| == 25)
    || (e.kind == TYPE_BAT && |e.payload| == 12)
    || (e.kind == TYPE_CRASH && |e.payload| == 9)
    || (e.kind == TYPE_BOOT && |e.payload| == 9)
    || (e.kind == TYPE_TIME_SET && |e.payload| == 8)
  }

  lemma EmittedIsUnambiguous(e: Entry)
    requires Emitted(e)
    ensures Unambiguous(e) && Recovers(RecordOf(e), e) && ShapeTellsType(RecordOf(e))
  {
  }

  /** A slot whose type byte was never programmed is still aligned. */
  lemma TornIsAligned(e: Entry, k: nat)
    requires e.Fits() && 1 <= k < e.Size()
    ensures Torn(e, k).kind == ERASED && Aligned(Torn(e, k))
  {
    var body := Encode(e)[1..k] + Fill(ERASED, e.Size() - k);
    assert body[|e.payload|] == ERASED;
  }

  function ParsedAs(es: seq<Entry>): (ps: seq<Parsed>)
    ensures |ps| == |es|
  {
    seq(|es|, i requires 0 <= i < |es| => RecordOf(es[i]))
  }

  ghost predicate AllAligned(es: seq<Entry>) {
    forall i :: 0 <= i < |es| ==> Aligned(es[i])
  }

  lemma ParsedAsStep(es: seq<Entry>, i: nat, rest: seq<Parsed>)
    requires i < |es|
    ensures ParsedAs(es[i..]) + rest == [RecordOf(es[i])] + (ParsedAs(es[i + 1..]) + rest)
  {
  }

  /** The bytes from base on are those of the entries es. */
  ghost predicate Laid(data: seq<byte>, base: nat, es: seq<Entry>)
    requires AllFit(es)
  {
    base + |EncodeAll(es)| <= |data| && data[base..base + |EncodeAll(es)|] == EncodeAll(es)
  }

  lemma EntryStarts(data: seq<byte>, base: nat, es: seq<Entry>, i: nat)
    requires AllFit(es) && Laid(data, base, es) && i < |es|
    ensures Starts(data, base + Offset(es, i), es[i])
    ensures Offset(es, i + 1) == Offset(es, i) + es[i].Size()
  {
    EntryAt(es, i);
    SliceOfSlice(data, base, base + |EncodeAll(es)|, Offset(es, i), Offset(es, i + 1));
  }

  /** The entries i.. of an encoded list standing at `base` decode in order;
      `tail` is what the bytes behind them decode to. */
  lemma {:induction false} ParseRun(data: seq<byte>, base: nat, es: seq<Entry>, i: nat, tail: seq<Parsed>)
    requires AllFit(es) && AllAligned(es) && i <= |es| && Laid(data, base, es)
    requires tail == ParseFrom(data, base + |EncodeAll(es)|)
    ensures ParseFrom(data, base + Offset(es, i)) == ParsedAs(es[i..]) + tail
    decreases |es| - i
  {
    if i == |es| {
      OffsetEnds(es);
      assert ParsedAs(es[i..]) + tail == tail;
    } else {
      EntryStarts(data, base, es, i);
      ParseEntry(data, base + Offset(es, i), es[i]);
      ParseRun(data, base, es, i + 1, tail);
      ParsedAsStep(es, i, tail);
    }
  }

  /** A whole encoded list decodes. */
  lemma {:induction false} ParseAll(data: seq<byte>, base: nat, es: seq<Entry>)
    requires AllFit(es) && AllAligned(es) && Laid(data, base, es)
    ensures ParseFrom(data, base) == ParsedAs(es) + ParseFrom(data, base + |EncodeAll(es)|)
  {
    OffsetEnds(es);
    ParseRun(data, base, es, 0, ParseFrom(data, base + |EncodeAll(es)|));
    assert es[0..] == es;
  }

  /** data is the images of the sectors ss followed by the entries `last`. */
  ghost predicate IsStream(data: seq<byte>, ss: seq<Sector>, last: seq<Entry>)
    requires AllFit(last)
  {
    && |ss| * SECTOR_SIZE <= |data|
    && data[|ss| * SECTOR_SIZE..] == EncodeAll(last)
    && forall k {:trigger ss[k]} :: 0 <= k < |ss| ==> SectorOk(ss[k]) && SectorAt(data, k) == Image(ss[k])
  }

  lemma EntriesOfSector(data: seq<byte>, k: nat, s: Sector)
    requires (k + 1) * SECTOR_SIZE <= |data| && SectorOk(s) && SectorAt(data, k) == Image(s)
    ensures Laid(data, k * SECTOR_SIZE, s.entries)
    ensures data[k * SECTOR_SIZE + Used(s)] == Filler(s.sealed)
  {
    SliceOfSlice(data, k * SECTOR_SIZE, (k + 1) * SECTOR_SIZE, 0, Used(s));
    assert Image(s)[..Used(s)] == EncodeAll(s.entries);
    SectorByte(data, k, Used(s));
  }

  lemma ParseSealedSector(data: seq<byte>, k: nat, s: Sector)
    requires (k + 1) * SECTOR_SIZE <= |data| && SectorOk(s) && SectorAt(data, k) == Image(s)
    requires s.sealed && AllAligned(s.entries)
    ensures ParseFrom(data, k * SECTOR_SIZE) == ParsedAs(s.entries) + ParseFrom(data, (k + 1) * SECTOR_SIZE)
  {
    EntriesOfSector(data, k, s);
    ParseAll(data, k * SECTOR_SIZE, s.entries);
    ParsePadding(data, k, Used(s));
  }

  lemma ParsePadding(data: seq<byte>, k: nat, off: nat)
    requires off < SECTOR_SIZE && (k + 1) * SECTOR_SIZE <= |data| && data[k * SECTOR_SIZE + off] == 0
    ensures ParseFrom(data, k * SECTOR_SIZE + off) == ParseFrom(data, (k + 1) * SECTOR_SIZE)
  {
    SectorOfOffset(k, off);
  }

  lemma ParsedAsConcat(a: seq<Entry>, b: seq<Entry>)
    ensures ParsedAs(a + b) == ParsedAs(a) + ParsedAs(b)
  {
  }

  lemma StreamStep(ss: seq<Sector>, last: seq<Entry>, k: nat)
    requires k < |ss|
    ensures ParsedAs(Flatten(ss[k..]) + last) == ParsedAs(ss[k].entries) + ParsedAs(Flatten(ss[k + 1..]) + last)
  {
    assert ss[k..][1..] == ss[k + 1..];
    assert Flatten(ss[k..]) + last == ss[k].entries + (Flatten(ss[k + 1..]) + last);
    ParsedAsConcat(ss[k].entries, Flatten(ss[k + 1..]) + last);
  }

  lemma ParseLast(data: seq<byte>, base: nat, last: seq<Entry>)
    requires AllFit(last) && AllAligned(last)
    requires base <= |data| && data[base..] == EncodeAll(last)
    ensures ParseFrom(data, base) == ParsedAs(Flatten([]) + last)
  {
    assert base + |EncodeAll(last)| == |data|;
    assert data[base..|data|] == data[base..];
    ParseAll(data, base, last);
    assert ParsedAs(last) + [] == ParsedAs(last);
    assert Flatten([]) + last == last;
  }

  /** A sector-aligned stream of padded sectors and a last, open one decodes to
      all its entries in order. */
  lemma {:induction false} ParseStream(data: seq<byte>, ss: seq<Sector>, last: seq<Entry>, k: nat)
    requires AllFit(last) && IsStream(data, ss, last) && k <= |ss|
    requires forall j :: k <= j < |ss| ==> ss[j].sealed && AllAligned(ss[j].entries)
    requires AllAligned(last)
    ensures ParseFrom(data, k * SECTOR_SIZE) == ParsedAs(Flatten(ss[k..]) + last)
    decreases |ss| - k
  {
    if k == |ss| {
      ParseLast(data, k * SECTOR_SIZE, last);
      assert ss[k..] == [];
    } else {
      assert (k + 1) * SECTOR_SIZE <= |data|;
      ParseSealedSector(data, k, ss[k]);
      ParseStream(data, ss, last, k + 1);
      StreamStep(ss, last, k);
    }
  }
}
