// The parameter table: a union of typed values, validated, sorted, packed with
// a checksum to flash and loaded back at boot.

module ParamStore {
  import opened Flash
  import opened Schedule

  const UNION_SIZE: nat := 16
  const RECORD_SIZE: nat := 20

  datatype Type = U16 | I16 | U32 | I32 | F32 | F64 | Str

  function TypeSize(t: Type): (n: nat)
    ensures 2 <= n <= UNION_SIZE
  {
    match t
    case U16 | I16 => 2
    case U32 | I32 | F32 => 4
    case F64 => 8
    case Str => 16
  }

  /** The 16 bytes of one value; a typed field is the first bytes of it. */
  type Raw = s: seq<byte> | |s| == 16 witness [0, 0, 0, 0, 0, 0, 0, 0, 0, 0, 0, 0, 0, 0, 0, 0]

  /** A 32-bit checksum as it is stored. */
  type Word = s: seq<byte> | |s| == 4 witness [0, 0, 0, 0]

  // ---- Little-endian numbers ------------------------------------------------------

  function FromLE(s: seq<byte>): nat {
    if s == [] then 0 else s[0] + 256 * FromLE(s[1..])
  }

  function ToLE(n: nat, k: nat): (s: seq<byte>)
    ensures |s| == k
  {
    if k == 0 then [] else [n % 256] + ToLE(n / 256, k - 1)
  }

  function Pow256(k: nat): nat { if k == 0 then 1 else 256 * Pow256(k - 1) }

  lemma {:induction false} FromToLE(n: nat, k: nat)
    requires n < Pow256(k)
    ensures FromLE(ToLE(n, k)) == n
  {
    if k > 0 {
      FromToLE(n / 256, k - 1);
    }
  }

  lemma {:induction false} FromLEBound(s: seq<byte>)
    ensures FromLE(s) < Pow256(|s|)
  {
    if s != [] {
      FromLEBound(s[1..]);
    }
  }

  // ---- Values -----------------------------------------------------------------------

  /** The integer the bits of a value are ordered by: themselves when unsigned,
      two's complement when signed, sign and magnitude for floats, whose order
      (NaN apart) is that of sign and magnitude. */
  function Key(t: Type, bits: nat): int {
    match t
    case U16 | U32 | Str => bits
    case I16 => if bits < 0x8000 then bits else bits - 0x1_0000
    case I32 => if bits < 0x8000_0000 then bits else bits - 0x1_0000_0000
    case F32 => if bits < 0x8000_0000 then bits else 0x8000_0000 - bits
    case F64 => if bits < 0x8000_0000_0000_0000 then bits else 0x8000_0000_0000_0000 - bits
  }

  /** NaN or infinite: all exponent bits set. */
  predicate NonFinite(t: Type, bits: nat) {
    match t
    case F32 => bits / 0x80_0000 % 0x100 == 0xFF
    case F64 => bits / 0x10_0000_0000_0000 % 0x800 == 0x7FF
    case _ => false
  }

  /** The number of bit patterns of a numeric type. */
  function Limit(t: Type): nat {
    match t
    case U16 | I16 => 0x1_0000
    case U32 | I32 | F32 => 0x1_0000_0000
    case F64 | Str => 0x1_0000_0000_0000_0000
  }

  lemma LimitIs(t: Type)
    requires t != Str
    ensures Limit(t) == Pow256(TypeSize(t))
  {
    assert Pow256(2) == 0x1_0000;
    assert Pow256(4) == 0x1_0000_0000;
    assert Pow256(6) == 0x1_0000_0000_0000;
    assert Pow256(8) == 0x1_0000_0000_0000_0000;
  }

  // One line of the parameter list, as bit patterns; text is the default of a
  // string.
  datatype Spec = Spec(ty: Type, def: nat, min: nat, max: nat, text: Raw)

  const NO_TEXT: Raw := [0, 0, 0, 0, 0, 0, 0, 0, 0, 0, 0, 0, 0, 0, 0, 0]

  predicate IsBounded(s: Spec) { s.ty != Str && s.min != s.max }

  /** Bits fit their type; bounds are finite, ordered and hold the default; a
      default string is terminated. */
  predicate SpecOk(s: Spec) {
    if s.ty == Str then s.text[15] == 0 else
      && s.def < Limit(s.ty) && s.min < Limit(s.ty) && s.max < Limit(s.ty)
      && !NonFinite(s.ty, s.def) && !NonFinite(s.ty, s.min) && !NonFinite(s.ty, s.max)
      && (IsBounded(s) ==> Key(s.ty, s.min) <= Key(s.ty, s.def) <= Key(s.ty, s.max))
  }

  function Default(s: Spec): Raw {
    if s.ty == Str then s.text else ToLE(s.def, TypeSize(s.ty)) + NO_TEXT[TypeSize(s.ty)..]
  }

  function Bits(s: Spec, v: Raw): nat { FromLE(v[..TypeSize(s.ty)]) }

  /** Assign the typed field: the other bytes of the union stay. */
  function WithBits(s: Spec, v: Raw, bits: nat): Raw {
    ToLE(bits, TypeSize(s.ty)) + v[TypeSize(s.ty)..]
  }

  function Validate(s: Spec, v: Raw): Raw {
    if s.ty == Str then v
    else if NonFinite(s.ty, Bits(s, v)) then Default(s)
    else if s.min == s.max then v
    else if Key(s.ty, Bits(s, v)) < Key(s.ty, s.min) then WithBits(s, v, s.min)
    else if Key(s.ty, Bits(s, v)) > Key(s.ty, s.max) then WithBits(s, v, s.max)
    else v
  }

  /** The value as far as its type reaches. */
  function Field(s: Spec, v: Raw): seq<byte> { v[..TypeSize(s.ty)] }

  predicate InBounds(s: Spec, v: Raw) {
    IsBounded(s) ==> Key(s.ty, s.min) <= Key(s.ty, Bits(s, v)) <= Key(s.ty, s.max)
  }

  lemma BitsOfWithBits(s: Spec, v: Raw, bits: nat)
    requires bits < Pow256(TypeSize(s.ty))
    ensures Bits(s, WithBits(s, v, bits)) == bits
  {
    FromToLE(bits, TypeSize(s.ty));
    assert WithBits(s, v, bits)[..TypeSize(s.ty)] == ToLE(bits, TypeSize(s.ty));
  }

  lemma BitsOfDefault(s: Spec)
    requires SpecOk(s) && s.ty != Str
    ensures Bits(s, Default(s)) == s.def
  {
    LimitIs(s.ty);
    FromToLE(s.def, TypeSize(s.ty));
    assert Default(s)[..TypeSize(s.ty)] == ToLE(s.def, TypeSize(s.ty));
  }

  /** A validated value is in bounds, finite, and validates to itself. */
  lemma ValidateBounds(s: Spec, v: Raw)
    requires SpecOk(s)
    ensures var r := Validate(s, v);
            InBounds(s, r) && (s.ty != Str ==> !NonFinite(s.ty, Bits(s, r))) && Validate(s, r) == r
  {
    if s.ty != Str {
      LimitIs(s.ty);
      BitsOfDefault(s);
      BitsOfWithBits(s, v, s.min);
      BitsOfWithBits(s, v, s.max);
    }
  }

  /** Validation changes a value exactly when it is not finite or not in bounds. */
  lemma ValidateChanges(s: Spec, v: Raw)
    requires SpecOk(s)
    ensures Validate(s, v) == v <==> s.ty == Str || (InBounds(s, v) && !NonFinite(s.ty, Bits(s, v)))
  {
    if s.ty != Str {
      LimitIs(s.ty);
      BitsOfDefault(s);
      BitsOfWithBits(s, v, s.min);
      BitsOfWithBits(s, v, s.max);
    }
  }

  /** Which of the three a validated number is: the default when it was not
      finite, the bound it was past, or itself. */
  lemma ValidateClamps(s: Spec, v: Raw)
    requires SpecOk(s) && s.ty != Str
    ensures var bits, r := Bits(s, v), Bits(s, Validate(s, v));
            && (NonFinite(s.ty, bits) ==> r == s.def)
            && (!NonFinite(s.ty, bits) && !IsBounded(s) ==> r == bits)
            && (!NonFinite(s.ty, bits) && IsBounded(s) ==>
                  && (Key(s.ty, bits) < Key(s.ty, s.min) ==> r == s.min)
                  && (Key(s.ty, bits) > Key(s.ty, s.max) ==> r == s.max)
                  && (Key(s.ty, s.min) <= Key(s.ty, bits) <= Key(s.ty, s.max) ==> r == bits))
  {
    LimitIs(s.ty);
    BitsOfDefault(s);
    BitsOfWithBits(s, v, s.min);
    BitsOfWithBits(s, v, s.max);
  }

  // ---- Records ------------------------------------------------------------------------

  /** The field, zero-extended to the record's data area. */
  function Pack(s: Spec, v: Raw): Raw {
    v[..TypeSize(s.ty)] + NO_TEXT[TypeSize(s.ty)..]
  }

  /** Copy the field back; a string is cut off at its last byte. */
  function Unpack(s: Spec, data: Raw, old_: Raw): Raw {
    if s.ty == Str then data[15 := 0] else data[..TypeSize(s.ty)] + old_[TypeSize(s.ty)..]
  }

  type Checksum = seq<byte> -> Word

  /** The checksum of a value covers its field. */
  function SumOf(s: Spec, v: Raw, crc: Checksum): Word { crc(Pack(s, v)[..TypeSize(s.ty)]) }

  function Record(s: Spec, v: Raw, crc: Checksum): (r: seq<byte>)
    ensures |r| == RECORD_SIZE
  {
    Pack(s, v) + SumOf(s, v, crc)
  }

  /** What loading a record leaves in a table entry. */
  function Load(s: Spec, data: Raw, sum: Word, old_: Raw, crc: Checksum): Raw {
    if crc(data[..TypeSize(s.ty)]) == sum then Validate(s, Unpack(s, data, old_)) else Default(s)
  }

  function LoadRecord(s: Spec, record: seq<byte>, old_: Raw, crc: Checksum): Raw
    requires |record| == RECORD_SIZE
  {
    Load(s, record[..UNION_SIZE], record[UNION_SIZE..], old_, crc)
  }

  /** A string that loads back as it is. */
  predicate Terminated(s: Spec, v: Raw) { s.ty == Str ==> v[15] == 0 }

  /** Loading what was committed gives the committed value back, whatever was
      in the table before; for a string, if and only if it is terminated. */
  lemma {:induction false} LoadRecordIff(s: Spec, v: Raw, old_: Raw, crc: Checksum)
    requires SpecOk(s)
    ensures var c := Validate(s, v);
            Field(s, Load(s, Pack(s, c), SumOf(s, c, crc), old_, crc)) == Field(s, c) <==> Terminated(s, c)
  {
    var c := Validate(s, v);
    var u := Unpack(s, Pack(s, c), old_);
    if s.ty == Str {
      assert u == c[15 := 0];
    } else {
      assert Field(s, u) == Field(s, c);
      ValidateBounds(s, v);
    }
  }

  /** Whatever a record holds, a bounded numeric parameter ends within bounds. */
  lemma LoadIsBounded(s: Spec, data: Raw, sum: Word, old_: Raw, crc: Checksum)
    requires SpecOk(s)
    ensures InBounds(s, Load(s, data, sum, old_, crc))
  {
    ValidateBounds(s, Unpack(s, data, old_));
    if s.ty != Str {
      BitsOfDefault(s);
    }
  }

  // ---- The store ------------------------------------------------------------------------

  /** The bits of a 32-bit signed value. */
  function I32Bits(x: int): nat { x % 0x1_0000_0000 }

  function AsI32(v: Raw): int { Key(I32, FromLE(v[..4])) }

  lemma AsI32Range(v: Raw)
    ensures INT32_MIN <= AsI32(v) <= INT32_MAX
  {
    FromLEBound(v[..4]);
    assert Pow256(2) == 0x1_0000;
    assert Pow256(4) == 0x1_0000_0000;
  }

  lemma AsI32OfBits(v: Raw, x: int)
    requires INT32_MIN <= x <= INT32_MAX
    ensures AsI32(ToLE(I32Bits(x), 4) + v[4..]) == x
  {
    assert Pow256(2) == 0x1_0000;
    assert Pow256(4) == 0x1_0000_0000;
    FromToLE(I32Bits(x), 4);
    assert (ToLE(I32Bits(x), 4) + v[4..])[..4] == ToLE(I32Bits(x), 4);
  }

  /** The move-time slots of a table. */
  function Slots(table: seq<Raw>, first: nat): (r: seq<int>)
    requires first + NUM_MOVE_TIMES <= |table|
    ensures |r| == NUM_MOVE_TIMES
  {
    seq(NUM_MOVE_TIMES, i requires 0 <= i < NUM_MOVE_TIMES => AsI32(table[first + i]))
  }

  lemma SlotsAreInt32s(table: seq<Raw>, first: nat)
    requires first + NUM_MOVE_TIMES <= |table|
    ensures Int32s(Slots(table, first))
  {
    forall i | 0 <= i < NUM_MOVE_TIMES
      ensures INT32_MIN <= Slots(table, first)[i] <= INT32_MAX
    {
      AsI32Range(table[first + i]);
    }
  }

  function SortedEntry(table: seq<Raw>, first: nat, i: nat): Raw
    requires first + NUM_MOVE_TIMES <= |table| && i < |table|
  {
    if first <= i < first + NUM_MOVE_TIMES
    then ToLE(I32Bits(Sort(Slots(table, first))[i - first]), 4) + table[i][4..]
    else table[i]
  }

  /** The table with its slots sorted. */
  function SortedTable(table: seq<Raw>, first: nat): (r: seq<Raw>)
    requires first + NUM_MOVE_TIMES <= |table|
    ensures |r| == |table|
  {
    seq(|table|, i requires 0 <= i < |table| => SortedEntry(table, first, i))
  }

  lemma SlotsOfSorted(table: seq<Raw>, first: nat)
    requires first + NUM_MOVE_TIMES <= |table|
    ensures Slots(SortedTable(table, first), first) == Sort(Slots(table, first))
  {
    SlotsAreInt32s(table, first);
    SortedAreInt32s(Slots(table, first));
    forall i | 0 <= i < NUM_MOVE_TIMES
      ensures Slots(SortedTable(table, first), first)[i] == Sort(Slots(table, first))[i]
    {
      AsI32OfBits(table[first + i], Sort(Slots(table, first))[i]);
    }
  }

  /** The table a commit leaves. */
  function Committed(specs: seq<Spec>, table: seq<Raw>, first: nat): (r: seq<Raw>)
    requires |table| == |specs| && first + NUM_MOVE_TIMES <= |table|
    ensures |r| == |table|
  {
    seq(|table|, i requires 0 <= i < |table| => Validate(specs[i], SortedTable(table, first)[i]))
  }

  /** Record i of the partition. */
  function RecordAt(f: seq<byte>, i: nat): (r: seq<byte>)
    requires (i + 1) * RECORD_SIZE <= |f|
    ensures |r| == RECORD_SIZE
  {
    f[i * RECORD_SIZE..(i + 1) * RECORD_SIZE]
  }

  /** The table after the load loop. */
  function Loaded(specs: seq<Spec>, f: seq<byte>, before: seq<Raw>, crc: Checksum): (r: seq<Raw>)
    requires |before| == |specs| && |specs| * RECORD_SIZE <= |f|
    ensures |r| == |specs|
  {
    seq(|specs|, k requires 0 <= k < |specs| => LoadEntry(specs[k], f, k, before[k], crc))
  }

  function LoadEntry(s: Spec, f: seq<byte>, k: nat, old_: Raw, crc: Checksum): Raw
    requires (k + 1) * RECORD_SIZE <= |f|
  {
    LoadRecord(s, RecordAt(f, k), old_, crc)
  }

  /** The first n records of the partition hold the first n entries. */
  ghost predicate HoldsTable(f: seq<byte>, specs: seq<Spec>, table: seq<Raw>, n: nat, crc: Checksum) {
    && n <= |specs| == |table| && n * RECORD_SIZE <= |f|
    && forall k {:trigger RecordAt(f, k)} :: 0 <= k < n ==>
         (k + 1) * RECORD_SIZE <= |f| && RecordAt(f, k) == Record(specs[k], table[k], crc)
  }

  lemma HoldsOneMore(f: seq<byte>, specs: seq<Spec>, table: seq<Raw>, n: nat, crc: Checksum, v: Raw)
    requires HoldsTable(f, specs, table, n, crc) && n < |specs| && (n + 1) * RECORD_SIZE <= |f|
    ensures HoldsTable(Splice(f, n * RECORD_SIZE, Record(specs[n], v, crc)), specs, table[n := v], n + 1, crc)
  {
    var rec := Record(specs[n], v, crc);
    var g := Splice(f, n * RECORD_SIZE, rec);
    forall k {:trigger RecordAt(g, k)} | 0 <= k < n + 1
      ensures RecordAt(g, k) == Record(specs[k], table[n := v][k], crc)
    {
      if k == n {
        assert RecordAt(g, n) == rec;
      } else {
        assert (k + 1) * RECORD_SIZE <= n * RECORD_SIZE;
        assert RecordAt(g, k) == RecordAt(f, k);
      }
    }
  }

  // ---- What changes the table ---------------------------------------------------------------

  datatype Option<T> = None | Some(value: T)

  /** A client's value for a parameter. */
  datatype Value = Text(str: seq<byte>) | Number(v: Raw)

  /** The slots' line of the parameter list: -1 to 86399. */
  predicate IsSlotSpec(s: Spec) {
    s.ty == I32 && s.min == 0xFFFF_FFFF && s.max == 86399
  }

  ghost predicate SpecsOk(specs: seq<Spec>, first: nat) {
    && first + NUM_MOVE_TIMES <= |specs|
    && (forall k :: 0 <= k < |specs| ==> SpecOk(specs[k]))
    && (forall k :: first <= k < first + NUM_MOVE_TIMES ==> IsSlotSpec(specs[k]))
  }

  function Defaults(specs: seq<Spec>): (r: seq<Raw>)
    ensures |r| == |specs|
  {
    seq(|specs|, i requires 0 <= i < |specs| => Default(specs[i]))
  }

  /** The first 15 characters, zero-padded. */
  function CString(str: seq<byte>): (r: Raw)
    ensures forall i :: 0 <= i < 16 ==> r[i] == if i < 15 && i < |str| then str[i] else 0
  {
    var s := if |str| <= 15 then str else str[..15];
    s + NO_TEXT[|s|..]
  }

  /** The table after a client set parameter id. */
  function AfterSet(specs: seq<Spec>, table: seq<Raw>, id: nat, value: Value): (r: seq<Raw>)
    requires |table| == |specs| && id < |specs|
    ensures |r| == |specs|
  {
    match value
    case Text(str) => if specs[id].ty == Str then table[id := CString(str)] else table
    case Number(v) => if specs[id].ty == Str then table else table[id := Validate(specs[id], v)]
  }

  // A client's set, a commit, a factory reset, a power cycle.
  datatype Change = Set(id: nat, value: Value) | Commit | Reset | Restart

  datatype State = State(table: seq<Raw>, flash: seq<byte>)

  ghost predicate Stepped(specs: seq<Spec>, first: nat, crc: Checksum, a: State, c: Change, b: State)
    requires first + NUM_MOVE_TIMES <= |specs| == |a.table| && |specs| * RECORD_SIZE <= |a.flash|
    requires c.Set? ==> c.id < |specs|
  {
    && |b.flash| == |a.flash| && |b.table| == |specs|
    && match c
       case Set(id, value) => b.table == AfterSet(specs, a.table, id, value) && b.flash == a.flash
       case Commit =>
         b.table == Committed(specs, a.table, first) && HoldsTable(b.flash, specs, b.table, |specs|, crc)
       case Reset =>
         b.table == Committed(specs, Defaults(specs), first) && HoldsTable(b.flash, specs, b.table, |specs|, crc)
       case Restart => b.table == Loaded(specs, a.flash, Defaults(specs), crc) && b.flash == a.flash
  }

  class Store {
    const specs: seq<Spec>
    const crc: Checksum
    const first: nat
    const cells: array<byte>
    const table: array<Raw>

    ghost predicate Valid()
      reads this
    {
      && table.Length == |specs|
      && SpecsOk(specs, first)
      && |specs| * RECORD_SIZE <= cells.Length
    }

    constructor (specs: seq<Spec>, crc: Checksum, first: nat, cells: array<byte>)
      requires SpecsOk(specs, first) && |specs| * RECORD_SIZE <= cells.Length
      ensures Valid() && fresh(table) && this.specs == specs && this.first == first && this.cells == cells
      ensures this.crc == crc && table[..] == Defaults(specs)
    {
      this.specs := specs;
      this.crc := crc;
      this.first := first;
      this.cells := cells;
      table := new Raw[|specs|](i requires 0 <= i < |specs| => Default(specs[i]));
    }

    method ValidateParam(id: nat) returns (changed: bool)
      requires Valid() && id < |specs|
      modifies table
      ensures table[..] == old(table[..])[id := Validate(specs[id], old(table[id]))]
      ensures changed <==> table[id] != old(table[id])
    {
      var s := specs[id];
      ValidateChanges(s, table[id]);
      changed := false;
      if s.ty == Str {
        return;
      }
      var bits := FromLE(table[id][..TypeSize(s.ty)]);
      if NonFinite(s.ty, bits) {
        table[id] := Default(s);
        return true;
      }
      if s.min == s.max {
        return;
      }
      if Key(s.ty, bits) < Key(s.ty, s.min) {
        table[id] := WithBits(s, table[id], s.min);
        changed := true;
      } else if Key(s.ty, bits) > Key(s.ty, s.max) {
        table[id] := WithBits(s, table[id], s.max);
        changed := true;
      }
    }

    method CopySlots() returns (v: array<int>)
      requires Valid()
      ensures fresh(v) && v[..] == Slots(table[..], first)
    {
      v := new int[NUM_MOVE_TIMES];
      for i := 0 to NUM_MOVE_TIMES
        modifies v
        invariant forall k :: 0 <= k < i ==> v[k] == AsI32(table[first + k])
      {
        v[i] := AsI32(table[first + i]);
      }
    }

    /** Copy the slots out, sort them, copy them back. */
    method SortMoveSchedule()
      requires Valid()
      modifies table
      ensures table[..] == SortedTable(old(table[..]), first)
    {
      ghost var before := table[..];
      var v := CopySlots();
      SortSlots(v);
      ghost var sorted := v[..];
      assert sorted == Sort(Slots(before, first));
      PasteSlots(v);
      assert table[..] == SortedTable(before, first);
    }

    method PasteSlots(v: array<int>)
      requires Valid() && v.Length == NUM_MOVE_TIMES
      modifies table
      ensures forall k :: 0 <= k < table.Length ==>
        table[k] == if first <= k < first + NUM_MOVE_TIMES
                    then ToLE(I32Bits(v[..][k - first]), 4) + old(table[k])[4..] else old(table[k])
    {
      for i := 0 to NUM_MOVE_TIMES
        invariant forall k :: 0 <= k < table.Length ==>
          table[k] == if first <= k < first + i
                      then ToLE(I32Bits(v[..][k - first]), 4) + old(table[k])[4..] else old(table[k])
      {
        table[first + i] := ToLE(I32Bits(v[i]), 4) + table[first + i][4..];
      }
    }

    /** Validate, pack and program parameter i into the erased rest. */
    method WriteParam(i: nat)
      requires Valid() && i < |specs|
      requires AllErased(cells[..], i * RECORD_SIZE, cells.Length)
      modifies table, cells
      ensures table[..] == old(table[..])[i := Validate(specs[i], old(table[i]))]
      ensures (i + 1) * RECORD_SIZE <= cells.Length
      ensures AllErased(cells[..], (i + 1) * RECORD_SIZE, cells.Length)
      ensures cells[..] == Splice(old(cells[..]), i * RECORD_SIZE, Record(specs[i], table[i], crc))
    {
      var _ := ValidateParam(i);
      assert (i + 1) * RECORD_SIZE <= |specs| * RECORD_SIZE;
      ProgramFresh(cells, i * RECORD_SIZE, Record(specs[i], table[i], crc));
    }

    /** Sort, then validate, pack and write every parameter to the erased
        partition. */
    method CommitParams()
      requires Valid()
      modifies table, cells
      ensures table[..] == Committed(specs, old(table[..]), first)
      ensures HoldsTable(cells[..], specs, table[..], |specs|, crc)
    {
      SortMoveSchedule();
      ghost var sorted := table[..];
      EraseRange(cells, 0, cells.Length);
      for i := 0 to |specs|
        invariant forall k :: 0 <= k < |specs| ==>
          table[k] == if k < i then Validate(specs[k], sorted[k]) else sorted[k]
        invariant i * RECORD_SIZE <= cells.Length && AllErased(cells[..], i * RECORD_SIZE, cells.Length)
        invariant HoldsTable(cells[..], specs, table[..], i, crc)
      {
        ghost var f, t := cells[..], table[..];
        WriteParam(i);
        HoldsOneMore(f, specs, t, i, crc, table[i]);
      }
    }

    /** Check, unpack and validate one record, or fall back to the default. */
    method LoadParam(i: nat, record: seq<byte>)
      requires Valid() && i < |specs| && |record| == RECORD_SIZE
      modifies table
      ensures table[..] == old(table[..])[i := LoadRecord(specs[i], record, old(table[i]), crc)]
    {
      var data: Raw := record[..UNION_SIZE];
      if crc(data[..TypeSize(specs[i].ty)]) == record[UNION_SIZE..] {
        table[i] := Unpack(specs[i], data, table[i]);
        var _ := ValidateParam(i);
      } else {
        table[i] := Default(specs[i]);
      }
    }

    /** Every entry back to its default. */
    method SetDefaults()
      requires Valid()
      modifies table
      ensures table[..] == Defaults(specs)
    {
      for i := 0 to |specs|
        invariant forall k :: 0 <= k < i ==> table[k] == Default(specs[k])
      {
        table[i] := Default(specs[i]);
      }
    }

    /** Store a value and validate it at once. */
    method SetParamValue(id: nat, v: Raw) returns (ok: bool)
      requires Valid()
      modifies table
      ensures ok <==> id < |specs|
      ensures table[..] == if ok then old(table[..])[id := Validate(specs[id], v)] else old(table[..])
    {
      if id >= |specs| {
        return false;
      }
      table[id] := v;
      var _ := ValidateParam(id);
      ok := true;
    }

    /** Store a C string, cut off at 15 characters; None is the null pointer. */
    method SetParamString(id: nat, str: Option<seq<byte>>) returns (ok: bool)
      requires Valid()
      modifies table
      ensures ok <==> id < |specs| && specs[id].ty == Str
      ensures table[..] ==
              if !ok then old(table[..])
              else if str.None? then old(table[..])[id := old(table[id])[0 := 0]]
              else old(table[..])[id := CString(str.value)]
    {
      if id >= |specs| || specs[id].ty != Str {
        return false;
      }
      if str.None? {
        table[id] := table[id][0 := 0];
      } else {
        table[id] := CString(str.value);
      }
      ok := true;
    }

    /** What a client sends goes to the setter of the parameter's type. */
    method SetFromClient(id: nat, value: Value) returns (ok: bool)
      requires Valid() && id < |specs|
      modifies table
      ensures ok <==> (specs[id].ty == Str <==> value.Text?)
      ensures table[..] == AfterSet(specs, old(table[..]), id, value)
    {
      if specs[id].ty == Str {
        if !value.Text? {
          return false;
        }
        ok := SetParamString(id, Some(value.str));
      } else {
        if !value.Number? {
          return false;
        }
        ok := SetParamValue(id, value.v);
      }
    }

    /** Back to the defaults, on flash too. */
    method FactoryReset()
      requires Valid()
      modifies table, cells
      ensures table[..] == Committed(specs, Defaults(specs), first)
      ensures HoldsTable(cells[..], specs, table[..], |specs|, crc)
    {
      SetDefaults();
      CommitParams();
    }

    /** A power cycle: the table starts as the defaults and is loaded. */
    method Reboot()
      requires Valid()
      modifies table
      ensures table[..] == Loaded(specs, cells[..], Defaults(specs), crc)
    {
      SetDefaults();
      StorageInit();
    }

    /** Any change of the table. */
    method Perform(c: Change)
      requires Valid() && (c.Set? ==> c.id < |specs|)
      modifies table, cells
      ensures Stepped(specs, first, crc, old(State(table[..], cells[..])), c, State(table[..], cells[..]))
    {
      match c {
        case Set(id, value) => var _ := SetFromClient(id, value);
        case Commit => CommitParams();
        case Reset => FactoryReset();
        case Restart => Reboot();
      }
    }

    /** The load loop at boot. */
    method StorageInit()
      requires Valid()
      modifies table
      ensures table[..] == Loaded(specs, cells[..], old(table[..]), crc)
    {
      ghost var before := table[..];
      for i := 0 to |specs|
        invariant forall k :: 0 <= k < |specs| ==>
          table[k] == if k < i then Loaded(specs, cells[..], before, crc)[k] else before[k]
      {
        assert (i + 1) * RECORD_SIZE <= |specs| * RECORD_SIZE;
        LoadParam(i, cells[i * RECORD_SIZE..(i + 1) * RECORD_SIZE]);
      }
    }
  }

  // ---- What the store promises ------------------------------------------------------------

  /** For arbitrary flash contents, every bounded numeric parameter is loaded
      within its bounds. */
  lemma LoadedInBounds(specs: seq<Spec>, f: seq<byte>, before: seq<Raw>, crc: Checksum, k: nat)
    requires |before| == |specs| && |specs| * RECORD_SIZE <= |f| && k < |specs| && SpecOk(specs[k])
    ensures InBounds(specs[k], Loaded(specs, f, before, crc)[k])
  {
    assert (k + 1) * RECORD_SIZE <= |f|;
    var r := RecordAt(f, k);
    LoadIsBounded(specs[k], r[..UNION_SIZE], r[UNION_SIZE..], before[k], crc);
  }

  /** The bytes of record k that hold its value, and those that hold its
      checksum: the last four. */
  function ValueBytes(f: seq<byte>, k: nat, s: Spec): seq<byte>
    requires (k + 1) * RECORD_SIZE <= |f|
  {
    f[k * RECORD_SIZE..k * RECORD_SIZE + TypeSize(s.ty)]
  }

  predicate Intact(f: seq<byte>, k: nat, s: Spec, crc: Checksum)
    requires (k + 1) * RECORD_SIZE <= |f|
  {
    crc(ValueBytes(f, k, s)) == f[(k + 1) * RECORD_SIZE - 4..(k + 1) * RECORD_SIZE]
  }

  /** A value the table may hold as it is. */
  predicate Acceptable(s: Spec, value: seq<byte>)
    requires |value| == TypeSize(s.ty)
  {
    s.ty == Str ||
    (!NonFinite(s.ty, FromLE(value)) &&
     (s.min == s.max || Key(s.ty, s.min) <= Key(s.ty, FromLE(value)) <= Key(s.ty, s.max)))
  }

  lemma RecordParts(f: seq<byte>, k: nat, s: Spec)
    requires (k + 1) * RECORD_SIZE <= |f|
    ensures RecordAt(f, k)[..UNION_SIZE][..TypeSize(s.ty)] == ValueBytes(f, k, s)
    ensures RecordAt(f, k)[UNION_SIZE..] == f[(k + 1) * RECORD_SIZE - 4..(k + 1) * RECORD_SIZE]
  {
    var n := TypeSize(s.ty);
    SliceOfSlice(f, k * RECORD_SIZE, (k + 1) * RECORD_SIZE, 0, n);
    assert RecordAt(f, k)[..UNION_SIZE][..n] == RecordAt(f, k)[0..n];
  }

  /** For arbitrary flash contents: a record whose checksum does not match its
      value leaves the parameter at its default; of one whose does, an
      acceptable value is loaded exactly, a string cut off at its last byte,
      and any other is corrected to the bound it is past or to the default. */
  lemma LoadsOnlyIntact(specs: seq<Spec>, f: seq<byte>, before: seq<Raw>, crc: Checksum, k: nat)
    requires |before| == |specs| && |specs| * RECORD_SIZE <= |f| && k < |specs| && SpecOk(specs[k])
    ensures (k + 1) * RECORD_SIZE <= |f|
    ensures var s, value, v := specs[k], ValueBytes(f, k, specs[k]), Loaded(specs, f, before, crc)[k];
            && (!Intact(f, k, s, crc) ==> v == Default(s))
            && (Intact(f, k, s, crc) ==>
                  && (s.ty == Str ==> v == value[15 := 0])
                  && (s.ty != Str && Acceptable(s, value) ==> Field(s, v) == value)
                  && (s.ty != Str && NonFinite(s.ty, FromLE(value)) ==> Bits(s, v) == s.def)
                  && (s.ty != Str && !NonFinite(s.ty, FromLE(value)) && IsBounded(s) ==>
                        && (Key(s.ty, FromLE(value)) < Key(s.ty, s.min) ==> Bits(s, v) == s.min)
                        && (Key(s.ty, FromLE(value)) > Key(s.ty, s.max) ==> Bits(s, v) == s.max)))
  {
    assert (k + 1) * RECORD_SIZE <= |specs| * RECORD_SIZE;
    RecordParts(f, k, specs[k]);
    var s, data := specs[k], RecordAt(f, k)[..UNION_SIZE];
    LoadOfIntact(s, data, RecordAt(f, k)[UNION_SIZE..], before[k], crc);
  }

  lemma LoadOfIntact(s: Spec, data: Raw, sum: Word, old_: Raw, crc: Checksum)
    requires SpecOk(s)
    ensures var value, v := data[..TypeSize(s.ty)], Load(s, data, sum, old_, crc);
            if crc(value) != sum then v == Default(s)
            else if s.ty == Str then v == value[15 := 0]
            else
              && (Acceptable(s, value) ==> Field(s, v) == value)
              && (NonFinite(s.ty, FromLE(value)) ==> Bits(s, v) == s.def)
              && (!NonFinite(s.ty, FromLE(value)) && IsBounded(s) ==>
                    && (Key(s.ty, FromLE(value)) < Key(s.ty, s.min) ==> Bits(s, v) == s.min)
                    && (Key(s.ty, FromLE(value)) > Key(s.ty, s.max) ==> Bits(s, v) == s.max))
  {
    if s.ty != Str {
      var u := Unpack(s, data, old_);
      assert u[..TypeSize(s.ty)] == data[..TypeSize(s.ty)];
      ValidateClamps(s, u);
      ValidateChanges(s, u);
    }
  }

  /** What a commit wrote is read back exactly, parameter by parameter and
      whatever the table held before; a string if and only if it is
      terminated. */
  lemma CommitThenLoad(specs: seq<Spec>, table: seq<Raw>, first: nat, f: seq<byte>, before: seq<Raw>, crc: Checksum, k: nat)
    requires |table| == |specs| == |before| && first + NUM_MOVE_TIMES <= |specs|
    requires |specs| * RECORD_SIZE <= |f| && k < |specs| && SpecOk(specs[k])
    requires HoldsTable(f, specs, Committed(specs, table, first), |specs|, crc)
    ensures var c := Committed(specs, table, first)[k];
            Field(specs[k], Loaded(specs, f, before, crc)[k]) == Field(specs[k], c) <==> Terminated(specs[k], c)
  {
    var c := Committed(specs, table, first)[k];
    assert RecordAt(f, k) == Record(specs[k], c, crc);
    LoadRecordIff(specs[k], SortedTable(table, first)[k], before[k], crc);
  }

  /** Slots within a day, as validation leaves them, sort canonically. */
  lemma {:induction false} InDayIsNotMasked(s: seq<int>)
    requires InDay(s)
    ensures !Masked(s)
    decreases |s|
  {
    if s != [] {
      InDayIsNotMasked(s[..|s| - 1]);
    }
  }

  /** Whatever is on flash, the slots that are loaded are within a day. */
  lemma LoadedSlotsInDay(specs: seq<Spec>, f: seq<byte>, before: seq<Raw>, crc: Checksum, first: nat)
    requires |before| == |specs| && |specs| * RECORD_SIZE <= |f| && first + NUM_MOVE_TIMES <= |specs|
    requires forall i :: first <= i < first + NUM_MOVE_TIMES ==> IsSlotSpec(specs[i]) && SpecOk(specs[i])
    ensures InDay(Slots(Loaded(specs, f, before, crc), first))
    ensures !Masked(Slots(Loaded(specs, f, before, crc), first))
  {
    var slots := Slots(Loaded(specs, f, before, crc), first);
    forall i | 0 <= i < NUM_MOVE_TIMES
      ensures slots[i] < DAY
    {
      var v := Loaded(specs, f, before, crc)[first + i];
      LoadedInBounds(specs, f, before, crc, first + i);
      assert slots[i] == AsI32(v) == Key(I32, Bits(specs[first + i], v));
    }
    InDayIsNotMasked(slots);
  }
}
