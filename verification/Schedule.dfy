// The daily schedule: the insertion sort of the move times and the next alarm.

module Schedule {

  const NUM_MOVE_TIMES: nat := 12
  const DAY: int := 86400
  const INT32_MAX: int := 0x7FFF_FFFF
  const INT32_MIN: int := -0x8000_0000

  /** Disabled slots rank above everything else. */
  function Rank(v: int): int { if v < 0 then INT32_MAX else v }

  // ---- The sort as a function ----------------------------------------------------------

  function Insert(s: seq<int>, key: int): (r: seq<int>)
    ensures |r| == |s| + 1
  {
    if s == [] || Rank(s[|s| - 1]) <= Rank(key) then s + [key]
    else Insert(s[..|s| - 1], key) + [s[|s| - 1]]
  }

  function Sort(s: seq<int>): (r: seq<int>)
    ensures |r| == |s|
  {
    if s == [] then [] else Insert(Sort(s[..|s| - 1]), s[|s| - 1])
  }

  /** Insertion sort in place. */
  method SortSlots(v: array<int>)
    modifies v
    ensures v[..] == Sort(old(v[..]))
  {
    ghost var orig := v[..];
    if v.Length == 0 {
      return;
    }
    var i := 1;
    assert orig[..1][..0] == [];
    while i < v.Length
      invariant 1 <= i <= v.Length
      invariant v[..i] == Sort(orig[..i])
      invariant v[i..] == orig[i..]
    {
      InsertAt(v, i);
      assert orig[..i + 1][..i] == orig[..i] && orig[..i + 1][i] == orig[i];
      i := i + 1;
    }
    assert orig[..v.Length] == orig && v[..v.Length] == v[..];
  }

  /** One round: shift larger elements up and drop the key into the gap. */
  method InsertAt(v: array<int>, i: nat)
    requires 0 < i < v.Length
    modifies v
    ensures v[..i + 1] == Insert(old(v[..i]), old(v[i])) && v[i + 1..] == old(v[i + 1..])
  {
    ghost var pre := v[..i];
    var key := v[i];
    var gap := ShiftUp(v, i, key);
    InsertIs(pre, key, gap);
    v[gap] := key;
    assert v[..i + 1] == pre[..gap] + [key] + pre[gap..];
  }

  /** Move the elements before i that rank above the key up by one. */
  method ShiftUp(v: array<int>, i: nat, key: int) returns (gap: nat)
    requires 0 < i < v.Length
    modifies v
    ensures gap <= i
    ensures gap > 0 ==> Rank(old(v[gap - 1])) <= Rank(key)
    ensures forall k :: gap <= k < i ==> Rank(old(v[k])) > Rank(key)
    ensures forall k :: 0 <= k < v.Length && (k < gap || k > i) ==> v[k] == old(v[k])
    ensures forall k :: gap < k <= i ==> v[k] == old(v[k - 1])
  {
    var j := i - 1;
    while j >= 0
      invariant -1 <= j < i
      invariant forall k :: j < k < i ==> Rank(old(v[k])) > Rank(key)
      invariant forall k :: 0 <= k < v.Length && (k <= j || k > i) ==> v[k] == old(v[k])
      invariant forall k :: j + 1 < k <= i ==> v[k] == old(v[k - 1])
      decreases j + 1
    {
      if Rank(v[j]) <= Rank(key) {
        break;
      }
      v[j + 1] := v[j];
      j := j - 1;
    }
    gap := j + 1;
  }

  /** Where Insert puts the key. */
  lemma {:induction false} InsertIs(pre: seq<int>, key: int, gap: nat)
    requires gap <= |pre| && (gap > 0 ==> Rank(pre[gap - 1]) <= Rank(key))
    requires forall k :: gap <= k < |pre| ==> Rank(pre[k]) > Rank(key)
    ensures Insert(pre, key) == pre[..gap] + [key] + pre[gap..]
    decreases |pre|
  {
    if gap < |pre| {
      var front := pre[..|pre| - 1];
      InsertIs(front, key, gap);
      assert front[..gap] == pre[..gap];
      assert pre[gap..] == front[gap..] + [pre[|pre| - 1]];
    }
  }

  // ---- What the sort does ------------------------------------------------------------------

  ghost predicate Ranked(s: seq<int>) {
    forall i, j :: 0 <= i < j < |s| ==> Rank(s[i]) <= Rank(s[j])
  }

  lemma {:induction false} InsertKeeps(s: seq<int>, key: int)
    ensures multiset(Insert(s, key)) == multiset(s) + multiset{key}
    decreases |s|
  {
    if !(s == [] || Rank(s[|s| - 1]) <= Rank(key)) {
      InsertKeeps(s[..|s| - 1], key);
      assert s == s[..|s| - 1] + [s[|s| - 1]];
    }
  }

  lemma RankedSnoc(s: seq<int>, x: int)
    requires Ranked(s) && forall i :: 0 <= i < |s| ==> Rank(s[i]) <= Rank(x)
    ensures Ranked(s + [x])
  {
  }

  lemma {:induction false} InsertRanked(s: seq<int>, key: int)
    requires Ranked(s)
    ensures Ranked(Insert(s, key))
    decreases |s|
  {
    if s == [] || Rank(s[|s| - 1]) <= Rank(key) {
      RankedSnoc(s, key);
    } else {
      var front, last := s[..|s| - 1], s[|s| - 1];
      var r := Insert(front, key);
      InsertRanked(front, key);
      InsertKeeps(front, key);
      forall i | 0 <= i < |r|
        ensures Rank(r[i]) <= Rank(last)
      {
        assert r[i] in multiset(r);
        assert r[i] == key || r[i] in front;
      }
      RankedSnoc(r, last);
    }
  }

  /** The sort ranks the slots and keeps them all. */
  lemma {:induction false} SortRanks(s: seq<int>)
    ensures Ranked(Sort(s)) && multiset(Sort(s)) == multiset(s)
    decreases |s|
  {
    if s != [] {
      SortRanks(s[..|s| - 1]);
      InsertRanked(Sort(s[..|s| - 1]), s[|s| - 1]);
      InsertKeeps(Sort(s[..|s| - 1]), s[|s| - 1]);
      assert s == s[..|s| - 1] + [s[|s| - 1]];
    }
  }

  /** The elements of top rank, in order. */
  function Top(s: seq<int>): seq<int> {
    if s == [] then []
    else Top(s[..|s| - 1]) + if Rank(s[|s| - 1]) == INT32_MAX then [s[|s| - 1]] else []
  }

  lemma {:induction false} InsertKeepsTop(s: seq<int>, key: int)
    requires key <= INT32_MAX && forall i :: 0 <= i < |s| ==> s[i] <= INT32_MAX
    ensures Top(Insert(s, key)) == Top(s) + if Rank(key) == INT32_MAX then [key] else []
    decreases |s|
  {
    if s == [] || Rank(s[|s| - 1]) <= Rank(key) {
      assert (s + [key])[..|s|] == s;
    } else {
      var front := s[..|s| - 1];
      InsertKeepsTop(front, key);
      assert (Insert(front, key) + [s[|s| - 1]])[..|s|] == Insert(front, key);
    }
  }

  ghost predicate Int32s(s: seq<int>) {
    forall i :: 0 <= i < |s| ==> INT32_MIN <= s[i] <= INT32_MAX
  }

  lemma SortedAreInt32s(s: seq<int>)
    requires Int32s(s)
    ensures Int32s(Sort(s))
  {
    SortRanks(s);
    forall i | 0 <= i < |s|
      ensures INT32_MIN <= Sort(s)[i] <= INT32_MAX
    {
      assert Sort(s)[i] in multiset(Sort(s));
      assert Sort(s)[i] in s;
    }
  }

  /** The sort is stable where it matters: among slots of top rank. */
  lemma {:induction false} SortKeepsTop(s: seq<int>)
    requires Int32s(s)
    ensures Top(Sort(s)) == Top(s)
    decreases |s|
  {
    if s != [] {
      var front := s[..|s| - 1];
      SortKeepsTop(front);
      SortedAreInt32s(front);
      InsertKeepsTop(Sort(front), s[|s| - 1]);
    }
  }

  /** Enabled slots ascending, disabled ones last. */
  ghost predicate Canonical(s: seq<int>) {
    forall i, j :: 0 <= i < j < |s| && s[j] >= 0 ==> 0 <= s[i] <= s[j]
  }

  /** A disabled slot stands before one that holds INT32_MAX. */
  predicate Masked(s: seq<int>) {
    s != [] && (Masked(s[..|s| - 1]) || (s[|s| - 1] == INT32_MAX && HasDisabled(s[..|s| - 1])))
  }

  predicate HasDisabled(s: seq<int>) {
    exists i :: 0 <= i < |s| && s[i] < 0
  }

  lemma {:induction false} TopDisabled(s: seq<int>)
    ensures HasDisabled(Top(s)) == HasDisabled(s)
    decreases |s|
  {
    if s != [] {
      var front, x := s[..|s| - 1], s[|s| - 1];
      TopDisabled(front);
      DisabledSnoc(front, x);
      DisabledSnoc(Top(front), x);
      assert s == front + [x];
      assert Top(front) + [] == Top(front);
    }
  }

  lemma DisabledSnoc(s: seq<int>, x: int)
    ensures HasDisabled(s + [x]) <==> HasDisabled(s) || x < 0
  {
    if HasDisabled(s) {
      var i :| 0 <= i < |s| && s[i] < 0;
      assert (s + [x])[i] < 0;
    }
    if x < 0 {
      assert (s + [x])[|s|] < 0;
    }
  }

  lemma {:induction false} TopMasked(s: seq<int>)
    ensures Masked(Top(s)) == Masked(s)
    decreases |s|
  {
    if s != [] {
      var front, x := s[..|s| - 1], s[|s| - 1];
      TopMasked(front);
      TopDisabled(front);
      if Rank(x) == INT32_MAX {
        assert (Top(front) + [x])[..|Top(front)|] == Top(front);
      } else {
        assert Top(s) == Top(front);
      }
    }
  }

  lemma CanonicalSnoc(s: seq<int>, x: int)
    requires Int32s(s + [x]) && Ranked(s + [x])
    ensures Canonical(s + [x]) <==> Canonical(s) && !(x == INT32_MAX && HasDisabled(s))
  {
    var r := s + [x];
    assert forall i :: 0 <= i < |s| ==> r[i] == s[i];
    if Canonical(r) && HasDisabled(s) {
      var i :| 0 <= i < |s| && s[i] < 0;
      assert r[i] < 0 && r[|s|] == x;
    }
    if Canonical(s) && !(x == INT32_MAX && HasDisabled(s)) && x >= 0 {
      forall i | 0 <= i < |s|
        ensures 0 <= r[i] <= x
      {
        assert Rank(r[i]) <= Rank(r[|s|]);
      }
    }
  }

  lemma {:induction false} MaskedIsOutOfOrder(s: seq<int>)
    requires Int32s(s) && Ranked(s)
    ensures Canonical(s) <==> !Masked(s)
    decreases |s|
  {
    if s != [] {
      var front := s[..|s| - 1];
      assert s == front + [s[|s| - 1]];
      MaskedIsOutOfOrder(front);
      CanonicalSnoc(front, s[|s| - 1]);
    }
  }

  /** The sort leaves the canonical order, for all 32-bit slots, if and only if
      no disabled slot stood before a slot holding INT32_MAX. */
  lemma SortCanonicalIff(s: seq<int>)
    requires Int32s(s)
    ensures Canonical(Sort(s)) <==> !Masked(s)
  {
    SortRanks(s);
    SortedAreInt32s(s);
    SortKeepsTop(s);
    TopMasked(s);
    TopMasked(Sort(s));
    MaskedIsOutOfOrder(Sort(s));
  }

  // ---- The next alarm ---------------------------------------------------------------------------

  /** t is a time of day at which some enabled slot fires. */
  predicate Occurs(slots: seq<int>, t: int) {
    exists i :: 0 <= i < |slots| && slots[i] >= 0 && t % DAY == slots[i]
  }

  ghost predicate IsNext(slots: seq<int>, now: int, t: int) {
    now < t && Occurs(slots, t) && forall u :: now < u < t ==> !Occurs(slots, u)
  }

  predicate AllDisabled(slots: seq<int>) {
    forall i :: 0 <= i < |slots| ==> slots[i] < 0
  }

  /** next is what scheduling at time now leaves. */
  ghost predicate ScheduledAt(slots: seq<int>, isSet: bool, now: int, next: int) {
    if !isSet || AllDisabled(slots) then next == -1 else IsNext(slots, now, next)
  }

  /** Slots are disabled or a second of the day. */
  ghost predicate InDay(slots: seq<int>) {
    forall i :: 0 <= i < |slots| ==> slots[i] < DAY
  }

  /** The next time a single enabled slot fires. */
  function Candidate(slot: int, now: int): int {
    var today := now - now % DAY + slot;
    if today <= now then today + DAY else today
  }

  /** The soonest candidate; -1 without an enabled slot. */
  function NextAlarm(slots: seq<int>, now: int): int {
    if slots == [] then -1
    else
      var best, slot := NextAlarm(slots[..|slots| - 1], now), slots[|slots| - 1];
      if slot >= 0 && (best < 0 || Candidate(slot, now) < best) then Candidate(slot, now) else best
  }

  /** The loop over the slots. */
  method ScheduleNextAlarm(slots: seq<int>, isSet: bool, now: int) returns (next: int)
    requires InDay(slots) && (isSet ==> now >= 0)
    ensures next == if isSet then NextAlarm(slots, now) else -1
    ensures ScheduledAt(slots, isSet, now, next)
  {
    if !isSet {
      return -1;
    }
    var midnight := now - now % DAY;
    var best := -1;
    for i := 0 to |slots|
      invariant best == NextAlarm(slots[..i], now)
    {
      assert slots[..i + 1][..i] == slots[..i];
      var slot := slots[i];
      if slot < 0 {
        continue;
      }
      var candidate := midnight + slot;
      if candidate <= now {
        candidate := candidate + DAY;
      }
      if best < 0 || candidate < best {
        best := candidate;
      }
    }
    assert slots[..|slots|] == slots;
    NextAlarmIs(slots, now);
    next := best;
  }

  /** The soonest candidate is the least time after now at which an enabled slot
      fires; there is none exactly when no slot is enabled. */
  lemma {:induction false} NextAlarmIs(slots: seq<int>, now: int)
    requires InDay(slots) && now >= 0
    ensures ScheduledAt(slots, true, now, NextAlarm(slots, now))
  {
    if slots != [] {
      var front, i := slots[..|slots| - 1], |slots| - 1;
      NextAlarmIs(front, now);
      assert slots[..i + 1] == slots && slots[..i] == front;
      if slots[i] >= 0 {
        NextOfMore(slots, i, now, NextAlarm(front, now), Candidate(slots[i], now));
      } else if !AllDisabled(front) {
        SameNext(slots, i, now, NextAlarm(front, now));
        assert forall k :: 0 <= k < i ==> front[k] == slots[k];
      }
    }
  }

  lemma OccursMore(slots: seq<int>, i: nat, t: int)
    requires i < |slots|
    ensures Occurs(slots[..i + 1], t) <==> Occurs(slots[..i], t) || (slots[i] >= 0 && t % DAY == slots[i])
  {
    if Occurs(slots[..i], t) {
      var k :| 0 <= k < i && slots[..i][k] >= 0 && t % DAY == slots[..i][k];
      assert slots[..i + 1][k] == slots[..i][k];
    }
    if slots[i] >= 0 && t % DAY == slots[i] {
      assert slots[..i + 1][i] == slots[i];
    }
    if Occurs(slots[..i + 1], t) {
      var k :| 0 <= k < i + 1 && slots[..i + 1][k] >= 0 && t % DAY == slots[..i + 1][k];
      if k < i {
        assert slots[..i][k] == slots[..i + 1][k];
      }
    }
  }

  lemma SameNext(slots: seq<int>, i: nat, now: int, t: int)
    requires i < |slots| && slots[i] < 0 && IsNext(slots[..i], now, t)
    ensures IsNext(slots[..i + 1], now, t)
  {
    OccursMore(slots, i, t);
    forall u {:trigger Occurs(slots[..i + 1], u)} | now < u < t
      ensures !Occurs(slots[..i + 1], u)
    {
      OccursMore(slots, i, u);
    }
  }

  lemma NextOfMore(slots: seq<int>, i: nat, now: int, best: int, candidate: int)
    requires i < |slots| && slots[i] >= 0
    requires now < candidate && candidate % DAY == slots[i]
    requires forall t :: now < t < candidate ==> t % DAY != slots[i]
    requires best == -1 ==> forall k :: 0 <= k < i ==> slots[k] < 0
    requires best != -1 ==> IsNext(slots[..i], now, best)
    ensures IsNext(slots[..i + 1], now, if best == -1 || candidate < best then candidate else best)
  {
    var r := if best == -1 || candidate < best then candidate else best;
    OccursMore(slots, i, r);
    forall u {:trigger Occurs(slots[..i + 1], u)} | now < u < r
      ensures !Occurs(slots[..i + 1], u)
    {
      OccursMore(slots, i, u);
    }
  }

  /** Sorting the slots does not change when anything fires. */
  lemma SortKeepsAlarm(slots: seq<int>, now: int, t: int)
    ensures IsNext(slots, now, t) <==> IsNext(Sort(slots), now, t)
  {
    forall u
      ensures Occurs(slots, u) <==> Occurs(Sort(slots), u)
    {
      SortKeepsOccurrence(slots, u);
    }
  }

  lemma SortKeepsInDay(slots: seq<int>)
    requires InDay(slots)
    ensures InDay(Sort(slots))
  {
    SortRanks(slots);
    forall i | 0 <= i < |slots|
      ensures Sort(slots)[i] < DAY
    {
      assert Sort(slots)[i] in multiset(Sort(slots));
      assert Sort(slots)[i] in slots;
    }
  }

  /** The next alarm is the same before and after sorting the slots. */
  lemma SortKeepsNextAlarm(slots: seq<int>, now: int)
    requires InDay(slots) && now >= 0
    ensures NextAlarm(Sort(slots), now) == NextAlarm(slots, now)
  {
    var s, t := NextAlarm(slots, now), NextAlarm(Sort(slots), now);
    SortKeepsInDay(slots);
    NextAlarmIs(slots, now);
    NextAlarmIs(Sort(slots), now);
    if AllDisabled(slots) {
      if !AllDisabled(Sort(slots)) {
        SortKeepsOccurrence(slots, t);
      }
    } else {
      SortKeepsOccurrence(slots, s);
      SortKeepsAlarm(slots, now, t);
    }
  }

  lemma SortKeepsOccurrence(slots: seq<int>, t: int)
    ensures Occurs(slots, t) <==> Occurs(Sort(slots), t)
  {
    SortRanks(slots);
    if Occurs(slots, t) {
      var i :| 0 <= i < |slots| && slots[i] >= 0 && t % DAY == slots[i];
      assert slots[i] in multiset(slots);
      assert slots[i] in Sort(slots);
    }
    if Occurs(Sort(slots), t) {
      var i :| 0 <= i < |slots| && Sort(slots)[i] >= 0 && t % DAY == Sort(slots)[i];
      assert Sort(slots)[i] in multiset(Sort(slots));
      assert Sort(slots)[i] in slots;
    }
  }

  // ---- Firing -----------------------------------------------------------------------------------

  /** One poll of the main loop: an alarm that is past fires and is
      rescheduled; a missing one is scheduled.  The clock is read again for the
      rescheduling: waking from soft idle waits for the radios in between. */
  ghost predicate Polled(slots: seq<int>, isSet: bool, now: int, later: int, next: int, next': int, fired: bool) {
    if !isSet then !fired && next' == next
    else if next < 0 then !fired && ScheduledAt(slots, isSet, now, next')
    else if now > next then fired && ScheduledAt(slots, isSet, later, next')
    else !fired && next' == next
  }

  class AlarmClock {
    var nextAlarm: int

    method Reschedule(slots: seq<int>, isSet: bool, now: int)
      requires InDay(slots) && (isSet ==> now >= 0)
      modifies this
      ensures ScheduledAt(slots, isSet, now, nextAlarm)
    {
      nextAlarm := ScheduleNextAlarm(slots, isSet, now);
    }

    method Tripped(slots: seq<int>, isSet: bool, now: int) returns (tripped: bool)
      requires InDay(slots) && (isSet ==> now >= 0)
      modifies this
      ensures tripped <==> isSet && 0 <= old(nextAlarm) < now
      ensures isSet && old(nextAlarm) < 0 ==> ScheduledAt(slots, isSet, now, nextAlarm)
      ensures !(isSet && old(nextAlarm) < 0) ==> nextAlarm == old(nextAlarm)
    {
      if !isSet {
        return false;
      }
      if nextAlarm < 0 {
        Reschedule(slots, isSet, now);
        return false;
      }
      tripped := now > nextAlarm;
    }

    /** The main loop's use of the alarm; `fired` issues a START, and `later` is
        the clock once that is done. */
    method Poll(slots: seq<int>, isSet: bool, now: int, later: int) returns (fired: bool)
      requires InDay(slots) && (isSet ==> 0 <= now <= later)
      modifies this
      ensures Polled(slots, isSet, now, later, old(nextAlarm), nextAlarm, fired)
    {
      fired := Tripped(slots, isSet, now);
      if fired {
        Reschedule(slots, isSet, later);
      }
    }
  }

  // A run of polls: the clock at each and when it is done, the alarm before
  // each and at the end, and which of them fired.
  datatype Polls = Polls(now: seq<int>, later: seq<int>, next: seq<int>, fired: seq<bool>)

  /** Poll i of a run, a poll that fires taking up to `wait` seconds. */
  ghost predicate PollAt(slots: seq<int>, wait: nat, r: Polls, i: nat)
    requires i < |r.now| && |r.later| == |r.fired| == |r.now| && |r.next| == |r.now| + 1
  {
    && Polled(slots, true, r.now[i], r.later[i], r.next[i], r.next[i + 1], r.fired[i])
    && r.now[i] <= r.later[i] <= r.now[i] + (if r.fired[i] then wait else 0)
    && (i > 0 ==> r.later[i - 1] <= r.now[i])
  }

  ghost predicate IsRun(slots: seq<int>, wait: nat, r: Polls) {
    && |r.next| == |r.now| + 1 && |r.fired| == |r.now| && |r.later| == |r.now|
    && forall i :: 0 <= i < |r.now| ==> PollAt(slots, wait, r, i)
  }

  /** An alarm scheduled when a poll was done stays after that time. */
  lemma {:induction false} AlarmsRise(slots: seq<int>, wait: nat, r: Polls, i: nat, j: nat)
    requires IsRun(slots, wait, r) && i < j <= |r.now| && r.fired[i]
    ensures r.next[j] == -1 || r.next[j] > r.later[i]
    ensures r.later[i] <= r.later[j - 1]
    decreases j
  {
    assert PollAt(slots, wait, r, j - 1);
    if j > i + 1 {
      AlarmsRise(slots, wait, r, i, j - 1);
    }
  }

  /** The alarms that fire strictly increase. */
  lemma {:induction false} FiredIncrease(slots: seq<int>, wait: nat, r: Polls, i: nat, j: nat)
    requires IsRun(slots, wait, r) && i < j < |r.now| && r.fired[i] && r.fired[j]
    ensures r.next[i] < r.later[i] < r.next[j]
  {
    assert PollAt(slots, wait, r, i) && PollAt(slots, wait, r, j);
    AlarmsRise(slots, wait, r, i, j);
  }

  /** The move due at o was started. */
  ghost predicate Started(r: Polls, o: int) {
    exists i :: 0 <= i < |r.fired| && i < |r.next| && r.fired[i] && r.next[i] == o
  }

  /** The move due at o came up before the poll that started an earlier one had
      rescheduled. */
  ghost predicate Overslept(r: Polls, o: int) {
    exists i :: 0 <= i < |r.fired| && i < |r.next| && i < |r.later| && r.fired[i] && r.next[i] < o <= r.later[i]
  }

  /** Polled from a fresh schedule on, at most a second after the poll before was
      done. */
  ghost predicate PolledFrom(slots: seq<int>, wait: nat, r: Polls, start: int) {
    && IsRun(slots, wait, r) && start >= 0
    && IsNext(slots, start, r.next[0])
    && (r.now != [] ==> start <= r.now[0] <= start + 1)
    && (forall i :: 0 < i < |r.now| ==> r.now[i] <= r.later[i - 1] + 1)
  }

  /** A move is scheduled at o, and the run has got past it by its poll n. */
  ghost predicate Due(slots: seq<int>, wait: nat, r: Polls, start: int, n: nat, o: int) {
    && PolledFrom(slots, wait, r, start) && n <= |r.now|
    && start < o < r.next[n] && Occurs(slots, o)
  }

  /** No move is missed, unless it was overslept. */
  lemma {:induction false} NoneMissed(slots: seq<int>, wait: nat, r: Polls, start: int, n: nat, o: int)
    requires Due(slots, wait, r, start, n, o)
    ensures Started(r, o) || Overslept(r, o)
    decreases n
  {
    if n > 0 {
      var last := n - 1;
      assert PollAt(slots, wait, r, last);
      PollsKeepUp(slots, wait, r, start, last);
      if o < r.next[last] {
        NoneMissed(slots, wait, r, start, last, o);
      }
    }
  }

  /** The clock is never more than a second past the alarm it is compared with. */
  lemma {:induction false} PollsKeepUp(slots: seq<int>, wait: nat, r: Polls, start: int, n: nat)
    requires PolledFrom(slots, wait, r, start) && n < |r.now|
    ensures 0 <= r.next[n] && 0 <= r.now[n] <= r.next[n] + 1 && Occurs(slots, r.next[n])
    decreases n
  {
    if n > 0 {
      PollsKeepUp(slots, wait, r, start, n - 1);
      assert !AllDisabled(slots);
      assert PollAt(slots, wait, r, n - 1) && PollAt(slots, wait, r, n);
    }
  }

  /** A move due is started if and only if it is not overslept; without a wait,
      that is, if and only if the one due a second before was not started. */
  lemma {:induction false} StartedIff(slots: seq<int>, wait: nat, r: Polls, start: int, n: nat, o: int)
    requires Due(slots, wait, r, start, n, o)
    ensures Started(r, o) <==> !Overslept(r, o)
    ensures wait == 0 ==> (Started(r, o) <==> !Started(r, o - 1))
  {
    NoneMissed(slots, wait, r, start, n, o);
    if Started(r, o) && Overslept(r, o) {
      var j :| 0 <= j < |r.fired| && j < |r.next| && r.fired[j] && r.next[j] == o;
      var i :| 0 <= i < |r.fired| && i < |r.next| && i < |r.later| && r.fired[i] && r.next[i] < o <= r.later[i];
      if i < j {
        FiredIncrease(slots, wait, r, i, j);
      } else if j < i {
        FiredIncrease(slots, wait, r, j, i);
      }
    }
    if wait == 0 {
      OversleptAtOnce(slots, r, start, o);
    }
  }

  lemma {:induction false} OversleptAtOnce(slots: seq<int>, r: Polls, start: int, o: int)
    requires PolledFrom(slots, 0, r, start)
    ensures Overslept(r, o) <==> Started(r, o - 1)
  {
    forall i | 0 <= i < |r.fired| && r.fired[i]
      ensures r.later[i] == r.next[i] + 1
    {
      assert PollAt(slots, 0, r, i);
      PollsKeepUp(slots, 0, r, start, i);
    }
  }

  /** Two enabled slots 1 to gap seconds apart, round the day. */
  ghost predicate Close(slots: seq<int>, gap: nat) {
    exists i, j, d :: 0 <= i < |slots| && 0 <= j < |slots| && SecondsAfter(slots[i], slots[j], d) && 1 <= d <= gap
  }

  predicate SecondsAfter(first: int, second: int, d: int) {
    first >= 0 && second == (first + d) % DAY
  }

  lemma {:induction false} CloseFrom(slots: seq<int>, gap: nat, a: int, o: int)
    requires Occurs(slots, a) && Occurs(slots, o) && a < o <= a + gap
    ensures Close(slots, gap)
  {
    var i :| 0 <= i < |slots| && slots[i] >= 0 && a % DAY == slots[i];
    var j :| 0 <= j < |slots| && slots[j] >= 0 && o % DAY == slots[j];
    assert SecondsAfter(slots[i], slots[j], o - a);
  }

  /** A run that skips a move: the poll that starts the first of two slots close
      together takes until the second one's time. */
  lemma {:induction false} SkippingRun(slots: seq<int>, wait: nat) returns (r: Polls, start: int, o: int)
    requires InDay(slots) && Close(slots, wait + 1)
    ensures Due(slots, wait, r, start, 2, o) && !Started(r, o)
  {
    var i, j, d :| 0 <= i < |slots| && 0 <= j < |slots| && SecondsAfter(slots[i], slots[j], d) && 1 <= d <= wait + 1;
    var a := slots[i] + DAY;
    o := a + d;
    start := a - 1;
    assert a % DAY == slots[i] && o % DAY == slots[j];
    NextAlarmIs(slots, o);
    r := Polls([a, a + 1], [a, o], [a, a, NextAlarm(slots, o)], [false, true]);
    assert IsNext(slots, start, a);
    assert PollAt(slots, wait, r, 0) && PollAt(slots, wait, r, 1);
  }

  /** When every poll comes at most a second after the one before was done, and
      one that fires takes up to `wait` seconds, every scheduled move is
      started, in every run, if and only if no two enabled slots are 1 to
      wait + 1 seconds apart. */
  lemma {:induction false} EveryMoveStartedIff(slots: seq<int>, wait: nat)
    requires InDay(slots)
    ensures (forall r, start, n, o :: Due(slots, wait, r, start, n, o) ==> Started(r, o)) <==> !Close(slots, wait + 1)
  {
    if Close(slots, wait + 1) {
      var r, start, o := SkippingRun(slots, wait);
    } else {
      forall r, start, n, o | Due(slots, wait, r, start, n, o)
        ensures Started(r, o)
      {
        StartedIff(slots, wait, r, start, n, o);
        if Overslept(r, o) {
          var i :| 0 <= i < |r.fired| && i < |r.next| && i < |r.later| && r.fired[i] && r.next[i] < o <= r.later[i];
          PollsKeepUp(slots, wait, r, start, i);
          assert PollAt(slots, wait, r, i);
          CloseFrom(slots, wait + 1, r.next[i], o);
        }
      }
    }
  }
}
