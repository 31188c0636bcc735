// Every run of the parameter store: client sets, commits, factory resets and
// power cycles in any order.

module ParamRuns {
  import opened Flash
  import opened ParamStore
  import opened Schedule

  /** A value as the store keeps it: in bounds, finite, terminated. */
  predicate ValueOk(s: Spec, v: Raw) {
    InBounds(s, v) && (s.ty != Str ==> !NonFinite(s.ty, Bits(s, v))) && Terminated(s, v)
  }

  ghost predicate TableOk(specs: seq<Spec>, table: seq<Raw>) {
    |table| == |specs| && forall k :: 0 <= k < |specs| ==> ValueOk(specs[k], table[k])
  }

  lemma DefaultOk(s: Spec)
    requires SpecOk(s)
    ensures ValueOk(s, Default(s))
  {
    if s.ty != Str {
      BitsOfDefault(s);
    }
  }

  lemma DefaultsOk(specs: seq<Spec>)
    requires forall k :: 0 <= k < |specs| ==> SpecOk(specs[k])
    ensures TableOk(specs, Defaults(specs))
  {
    forall k | 0 <= k < |specs|
      ensures ValueOk(specs[k], Defaults(specs)[k])
    {
      DefaultOk(specs[k]);
    }
  }

  lemma SetOk(specs: seq<Spec>, table: seq<Raw>, id: nat, value: Value)
    requires TableOk(specs, table) && id < |specs| && SpecOk(specs[id])
    ensures TableOk(specs, AfterSet(specs, table, id, value))
  {
    if value.Number? {
      ValidateBounds(specs[id], value.v);
    }
  }

  lemma LoadOk(s: Spec, data: Raw, sum: Word, old_: Raw, crc: Checksum)
    requires SpecOk(s)
    ensures ValueOk(s, Load(s, data, sum, old_, crc))
  {
    DefaultOk(s);
    ValidateBounds(s, Unpack(s, data, old_));
  }

  /** Whatever is on flash, loading leaves a table the store may keep. */
  lemma LoadedOk(specs: seq<Spec>, f: seq<byte>, before: seq<Raw>, crc: Checksum)
    requires |before| == |specs| && |specs| * RECORD_SIZE <= |f|
    requires forall k :: 0 <= k < |specs| ==> SpecOk(specs[k])
    ensures TableOk(specs, Loaded(specs, f, before, crc))
  {
    forall k | 0 <= k < |specs|
      ensures ValueOk(specs[k], Loaded(specs, f, before, crc)[k])
    {
      assert (k + 1) * RECORD_SIZE <= |f|;
      var r := RecordAt(f, k);
      LoadOk(specs[k], r[..UNION_SIZE], r[UNION_SIZE..], before[k], crc);
    }
  }

  /** The slots of a kept table are disabled or a second of the day. */
  lemma SlotsInDay(specs: seq<Spec>, table: seq<Raw>, first: nat)
    requires SpecsOk(specs, first) && TableOk(specs, table)
    ensures forall i :: 0 <= i < NUM_MOVE_TIMES ==> -1 <= Slots(table, first)[i] < DAY
    ensures InDay(Slots(table, first))
  {
    forall i | 0 <= i < NUM_MOVE_TIMES
      ensures -1 <= Slots(table, first)[i] < DAY
    {
      assert ValueOk(specs[first + i], table[first + i]);
      assert AsI32(table[first + i]) == Key(I32, Bits(specs[first + i], table[first + i]));
    }
  }

  lemma SortedEntryOk(specs: seq<Spec>, table: seq<Raw>, first: nat, k: nat)
    requires SpecsOk(specs, first) && TableOk(specs, table) && k < |specs|
    ensures ValueOk(specs[k], SortedEntry(table, first, k))
  {
    if first <= k < first + NUM_MOVE_TIMES {
      var slots := Slots(table, first);
      var x := Sort(slots)[k - first];
      SlotsInDay(specs, table, first);
      SortRanks(slots);
      assert x in multiset(Sort(slots));
      assert x in slots;
      AsI32OfBits(table[k], x);
      assert AsI32(SortedEntry(table, first, k)) == Key(I32, Bits(specs[k], SortedEntry(table, first, k)));
    }
  }

  /** Committing a kept table only sorts its slots: validation changes nothing
      after that. */
  lemma CommitSorts(specs: seq<Spec>, table: seq<Raw>, first: nat)
    requires SpecsOk(specs, first) && TableOk(specs, table)
    ensures Committed(specs, table, first) == SortedTable(table, first)
    ensures TableOk(specs, SortedTable(table, first))
  {
    forall k | 0 <= k < |specs|
      ensures Validate(specs[k], SortedTable(table, first)[k]) == SortedTable(table, first)[k]
      ensures ValueOk(specs[k], SortedTable(table, first)[k])
    {
      SortedEntryOk(specs, table, first, k);
      ValidateChanges(specs[k], SortedTable(table, first)[k]);
    }
  }

  /** After every commit of a kept table the slots are those from before,
      enabled ones ascending and disabled ones last. */
  lemma {:induction false} CommittedSchedule(specs: seq<Spec>, table: seq<Raw>, first: nat)
    requires SpecsOk(specs, first) && TableOk(specs, table)
    ensures var slots := Slots(table, first);
            var after := Slots(Committed(specs, table, first), first);
            multiset(after) == multiset(slots) && Canonical(after)
  {
    var slots := Slots(table, first);
    CommitSorts(specs, table, first);
    SlotsOfSorted(table, first);
    SortRanks(slots);
    SlotsAreInt32s(table, first);
    SlotsInDay(specs, table, first);
    InDayIsNotMasked(slots);
    SortCanonicalIff(slots);
  }

  // A run: the states before and after each change.
  datatype Run = Run(states: seq<State>, changes: seq<Change>)

  /** From power-on: the table is the defaults, the flash anything. */
  ghost predicate IsParamRun(specs: seq<Spec>, first: nat, crc: Checksum, r: Run) {
    && SpecsOk(specs, first)
    && |r.states| == |r.changes| + 1
    && r.states[0].table == Defaults(specs)
    && (forall i {:trigger r.states[i]} :: 0 <= i < |r.states| ==>
          |r.states[i].table| == |specs| && |specs| * RECORD_SIZE <= |r.states[i].flash|)
    && (forall i {:trigger r.changes[i]} :: 0 <= i < |r.changes| ==>
          && (r.changes[i].Set? ==> r.changes[i].id < |specs|)
          && Stepped(specs, first, crc, r.states[i], r.changes[i], r.states[i + 1]))
  }

  lemma {:induction false} StepOk(specs: seq<Spec>, first: nat, crc: Checksum, a: State, c: Change, b: State)
    requires SpecsOk(specs, first) && TableOk(specs, a.table) && |specs| * RECORD_SIZE <= |a.flash|
    requires (c.Set? ==> c.id < |specs|) && Stepped(specs, first, crc, a, c, b)
    ensures TableOk(specs, b.table)
  {
    match c {
      case Set(id, value) => SetOk(specs, a.table, id, value);
      case Commit => CommitSorts(specs, a.table, first);
      case Reset =>
        DefaultsOk(specs);
        CommitSorts(specs, Defaults(specs), first);
      case Restart => LoadedOk(specs, a.flash, Defaults(specs), crc);
    }
  }

  /** In every run, at every moment: bounded values within their bounds, floats
      finite, strings terminated, and the slots within a day, as the scheduler
      demands. */
  lemma {:induction false} TableAlwaysOk(specs: seq<Spec>, first: nat, crc: Checksum, r: Run, i: nat)
    requires IsParamRun(specs, first, crc, r) && i < |r.states|
    ensures TableOk(specs, r.states[i].table) && InDay(Slots(r.states[i].table, first))
    decreases i
  {
    if i == 0 {
      DefaultsOk(specs);
    } else {
      TableAlwaysOk(specs, first, crc, r, i - 1);
      StepOk(specs, first, crc, r.states[i - 1], r.changes[i - 1], r.states[i]);
    }
    SlotsInDay(specs, r.states[i].table, first);
  }

  predicate Saves(c: Change) { c.Commit? || c.Reset? }

  /** In every run, every commit and every factory reset leaves the schedule
      canonical. */
  lemma {:induction false} EveryCommitIsCanonical(specs: seq<Spec>, first: nat, crc: Checksum, r: Run, i: nat)
    requires IsParamRun(specs, first, crc, r) && i < |r.changes| && Saves(r.changes[i])
    ensures Canonical(Slots(r.states[i + 1].table, first))
  {
    if r.changes[i].Commit? {
      TableAlwaysOk(specs, first, crc, r, i);
      CommittedSchedule(specs, r.states[i].table, first);
    } else {
      DefaultsOk(specs);
      CommittedSchedule(specs, Defaults(specs), first);
    }
  }

  lemma {:induction false} FlashKept(specs: seq<Spec>, first: nat, crc: Checksum, r: Run, i: nat, j: nat)
    requires IsParamRun(specs, first, crc, r) && i <= j < |r.states|
    requires forall k :: i <= k < j ==> !Saves(r.changes[k])
    ensures r.states[j].flash == r.states[i].flash
    decreases j
  {
    if i < j {
      FlashKept(specs, first, crc, r, i, j - 1);
      assert Stepped(specs, first, crc, r.states[j - 1], r.changes[j - 1], r.states[j]);
    }
  }

  /** What a save at step i left on flash loads back exactly. */
  lemma SavedLoads(specs: seq<Spec>, first: nat, f: seq<byte>, table: seq<Raw>, crc: Checksum, k: nat)
    requires SpecsOk(specs, first) && TableOk(specs, table) && k < |specs|
    requires HoldsTable(f, specs, table, |specs|, crc)
    ensures Field(specs[k], Loaded(specs, f, Defaults(specs), crc)[k]) == Field(specs[k], table[k])
  {
    assert RecordAt(f, k) == Record(specs[k], table[k], crc);
    ValidateChanges(specs[k], table[k]);
    LoadRecordIff(specs[k], table[k], Defaults(specs)[k], crc);
  }

  /** Until the next save the flash holds what the last one left in the table. */
  lemma {:induction false} StaysSaved(specs: seq<Spec>, first: nat, crc: Checksum, r: Run, i: nat, j: nat)
    requires IsParamRun(specs, first, crc, r) && i < j < |r.states| && Saves(r.changes[i])
    requires forall m :: i < m < j ==> !Saves(r.changes[m])
    ensures HoldsTable(r.states[j].flash, specs, r.states[i + 1].table, |specs|, crc)
  {
    assert Stepped(specs, first, crc, r.states[i], r.changes[i], r.states[i + 1]);
    FlashKept(specs, first, crc, r, i + 1, j);
  }

  lemma RestartLoads(specs: seq<Spec>, first: nat, crc: Checksum, r: Run, j: nat)
    requires IsParamRun(specs, first, crc, r) && j < |r.changes| && r.changes[j].Restart?
    ensures |specs| * RECORD_SIZE <= |r.states[j].flash|
    ensures r.states[j + 1].table == Loaded(specs, r.states[j].flash, Defaults(specs), crc)
  {
    assert Stepped(specs, first, crc, r.states[j], r.changes[j], r.states[j + 1]);
  }

  lemma SavedTable(specs: seq<Spec>, first: nat, crc: Checksum, r: Run, i: nat) returns (table: seq<Raw>)
    requires IsParamRun(specs, first, crc, r) && i < |r.changes|
    ensures table == r.states[i + 1].table && SpecsOk(specs, first) && TableOk(specs, table)
  {
    table := r.states[i + 1].table;
    TableAlwaysOk(specs, first, crc, r, i + 1);
  }

  /** The flash a power cycle loads: what the latest save left on it. */
  lemma {:induction false} RestartFrom(specs: seq<Spec>, first: nat, crc: Checksum, r: Run, i: nat, j: nat)
    returns (f: seq<byte>)
    requires IsParamRun(specs, first, crc, r) && i < j < |r.changes|
    requires Saves(r.changes[i]) && r.changes[j].Restart?
    requires forall m :: i < m < j ==> !Saves(r.changes[m])
    ensures HoldsTable(f, specs, r.states[i + 1].table, |specs|, crc) && |specs| * RECORD_SIZE <= |f|
    ensures r.states[j + 1].table == Loaded(specs, f, Defaults(specs), crc)
  {
    f := r.states[j].flash;
    StaysSaved(specs, first, crc, r, i, j);
    RestartLoads(specs, first, crc, r, j);
  }

  /** In every run, a power cycle brings back exactly what the latest commit or
      factory reset left in the table, every parameter, strings included, and
      whatever was set and not committed in between. */
  lemma {:induction false} RestartReadsBack(specs: seq<Spec>, first: nat, crc: Checksum, r: Run, i: nat, j: nat, k: nat)
    requires IsParamRun(specs, first, crc, r) && i < j < |r.changes| && k < |specs|
    requires Saves(r.changes[i]) && r.changes[j].Restart?
    requires forall m :: i < m < j ==> !Saves(r.changes[m])
    ensures Field(specs[k], r.states[j + 1].table[k]) == Field(specs[k], r.states[i + 1].table[k])
  {
    var table := SavedTable(specs, first, crc, r, i);
    var f := RestartFrom(specs, first, crc, r, i, j);
    SavedLoads(specs, first, f, table, crc, k);
  }
}
