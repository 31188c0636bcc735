// Whole runs of the log: any sequence of writes, reboots and power cuts.

module LogRuns {
  import opened Flash
  import opened LogModel
  import opened LogHistory
  import opened LogReader
  import opened LogRecovery
  import LogStore

  // A power cut interrupts the write of `entry` after k bytes and is followed
  // by a boot.
  datatype Event =
    | Written(entry: Entry)
    | PowerCut(entry: Entry, k: nat)
    | Reboot

  /** Boots happen where the scan can find the head (always, in the first lap). */
  predicate Possible(l: Log, ev: Event)
    requires LogOk(l)
  {
    match ev
    case Written(e) => e.Fits()
    case PowerCut(e, k) => e.Fits() && k <= e.Size() && HeadRecoverable(Cut(l, e, k))
    case Reboot => HeadRecoverable(l)
  }

  function Apply(l: Log, ev: Event): (r: Log)
    requires LogOk(l) && Possible(l, ev)
    ensures LogOk(r) && |r.sectors| == |l.sectors|
  {
    match ev
    case Written(e) => Write(l, e)
    case PowerCut(e, k) => Rebooted(Cut(l, e, k))
    case Reboot => Rebooted(l)
  }

  /** What an event adds to the entries on flash. */
  function Effect(ev: Event): seq<Entry>
    requires ev.PowerCut? ==> ev.entry.Fits() && ev.k <= ev.entry.Size()
  {
    match ev
    case Written(e) => [e]
    case PowerCut(e, k) => if k == 0 then [] else [Torn(e, k)]
    case Reboot => []
  }

  ghost predicate PossibleRun(l: Log, evs: seq<Event>)
    requires LogOk(l)
    decreases evs
  {
    evs == [] || (Possible(l, evs[0]) && PossibleRun(Apply(l, evs[0]), evs[1..]))
  }

  function Run(l: Log, evs: seq<Event>): (r: Log)
    requires LogOk(l) && PossibleRun(l, evs)
    ensures LogOk(r) && |r.sectors| == |l.sectors|
    decreases evs
  {
    if evs == [] then l else Run(Apply(l, evs[0]), evs[1..])
  }

  function Effects(l: Log, evs: seq<Event>): seq<Entry>
    requires LogOk(l) && PossibleRun(l, evs)
    decreases evs
  {
    if evs == [] then [] else Effect(evs[0]) + Effects(Apply(l, evs[0]), evs[1..])
  }

  // ---- History over runs -------------------------------------------------------

  lemma PrepareHistory(l: Log, size: nat, written: seq<Entry>, lapStart: nat) returns (lapStart': nat)
    requires LogOk(l) && HistoryOk(l, written, lapStart)
    ensures HistoryOk(Prepare(l, size), written, lapStart')
  {
    lapStart' := lapStart;
    if MustAdvance(l, size) {
      AdvanceHistory(l, written, lapStart);
      lapStart' := LapStartAfter(l, written, lapStart);
    }
  }

  lemma {:induction false} ApplyHistory(l: Log, ev: Event, written: seq<Entry>, lapStart: nat) returns (lapStart': nat)
    requires LogOk(l) && Possible(l, ev) && HistoryOk(l, written, lapStart)
    ensures HistoryOk(Apply(l, ev), written + Effect(ev), lapStart')
  {
    lapStart' := lapStart;
    match ev {
      case Written(e) =>
        lapStart' := PrepareHistory(l, e.Size(), written, lapStart);
        AppendHistory(Prepare(l, e.Size()), e, written, lapStart');
      case PowerCut(e, k) =>
        lapStart' := PrepareHistory(l, e.Size(), written, lapStart);
        if k == 0 {
          assert written + Effect(ev) == written;
        } else {
          AppendHistory(Prepare(l, e.Size()), Torn(e, k), written, lapStart');
        }
        RebootedHistory(Cut(l, e, k), written + Effect(ev), lapStart');
      case Reboot =>
        assert written + Effect(ev) == written;
        RebootedHistory(l, written, lapStart);
    }
  }

  lemma {:induction false} RunHistory(l: Log, evs: seq<Event>, written: seq<Entry>, lapStart: nat)
    returns (lapStart': nat)
    requires LogOk(l) && PossibleRun(l, evs) && HistoryOk(l, written, lapStart)
    ensures HistoryOk(Run(l, evs), written + Effects(l, evs), lapStart')
    decreases evs
  {
    if evs == [] {
      lapStart' := lapStart;
      assert written + Effects(l, evs) == written;
    } else {
      var r, rest := Apply(l, evs[0]), evs[1..];
      var lap := ApplyHistory(l, evs[0], written, lapStart);
      lapStart' := RunHistory(r, rest, written + Effect(evs[0]), lap);
      ConcatAssoc(written, Effect(evs[0]), Effects(r, rest));
    }
  }

  /** For every run from an erased partition the visible log is a suffix of
      what was written; in the first lap it is all of it, whatever reboots and
      power cuts happened. */
  lemma {:induction false} VisibleOfRun(n: nat, evs: seq<Event>)
    requires n > 0 && PossibleRun(FreshLog(n), evs)
    ensures var l := Run(FreshLog(n), evs);
            && IsSuffix(Visible(l), Effects(FreshLog(n), evs))
            && (!l.wrapped ==> Visible(l) == Effects(FreshLog(n), evs))
  {
    var l := Run(FreshLog(n), evs);
    FreshHistory(n);
    var lap := RunHistory(FreshLog(n), evs, [], 0);
    assert [] + Effects(FreshLog(n), evs) == Effects(FreshLog(n), evs);
    VisibleIsSuffix(l);
    SuffixTransitive(Visible(l), Retained(l), Effects(FreshLog(n), evs));
    if !l.wrapped {
      FirstLapTail(FreshLog(n), evs);
    }
  }

  lemma {:induction false} RunStaysWrapped(l: Log, evs: seq<Event>)
    requires LogOk(l) && PossibleRun(l, evs) && l.wrapped
    ensures Run(l, evs).wrapped
    decreases evs
  {
    if evs != [] {
      RunStaysWrapped(Apply(l, evs[0]), evs[1..]);
    }
  }

  lemma {:induction false} FirstLapTail(l: Log, evs: seq<Event>)
    requires LogOk(l) && PossibleRun(l, evs) && l.tailSector == 0
    requires !Run(l, evs).wrapped
    ensures Run(l, evs).tailSector == 0
    decreases evs
  {
    if evs != [] {
      var r := Apply(l, evs[0]);
      if r.wrapped {
        RunStaysWrapped(r, evs[1..]);
      }
      FirstLapTail(r, evs[1..]);
    }
  }

  // ---- What a reader gets after a run --------------------------------------------

  /** Writing an entry of this size takes the head past the partition's end. */
  predicate Wraps(l: Log, size: nat)
    requires LogOk(l)
  {
    MustAdvance(l, size) && l.at + 1 == |l.sectors|
  }

  /** The entries written since the head last wrapped, when those so far are
      `lap`. */
  function LapAfter(l: Log, ev: Event, lap: seq<Entry>): seq<Entry>
    requires LogOk(l) && Possible(l, ev)
  {
    (if !ev.Reboot? && Wraps(l, ev.entry.Size()) then [] else lap) + Effect(ev)
  }

  function SinceWrap(l: Log, evs: seq<Event>, lap: seq<Entry>): seq<Entry>
    requires LogOk(l) && PossibleRun(l, evs)
    decreases evs
  {
    if evs == [] then lap else SinceWrap(Apply(l, evs[0]), evs[1..], LapAfter(l, evs[0], lap))
  }

  lemma PrepareLap(l: Log, size: nat)
    requires LogOk(l)
    ensures CurrentLap(Prepare(l, size)) == if Wraps(l, size) then [] else CurrentLap(l)
  {
    if MustAdvance(l, size) {
      if l.at + 1 < |l.sectors| { AdvanceWithinLap(l); } else { AdvanceToNextLap(l); }
    }
  }

  lemma WriteLap(l: Log, e: Entry)
    requires LogOk(l) && e.Fits()
    ensures CurrentLap(Write(l, e)) == (if Wraps(l, e.Size()) then [] else CurrentLap(l)) + [e]
  {
    PrepareLap(l, e.Size());
    AppendToLap(Prepare(l, e.Size()), e);
  }

  lemma SameLap(l: Log)
    requires LogOk(l)
    ensures CurrentLap(Rebooted(l)) == CurrentLap(l)
  {
  }

  lemma CutLap(l: Log, e: Entry, k: nat)
    requires LogOk(l) && e.Fits() && k <= e.Size()
    ensures CurrentLap(Cut(l, e, k)) ==
            (if Wraps(l, e.Size()) then [] else CurrentLap(l)) + (if k == 0 then [] else [Torn(e, k)])
  {
    PrepareLap(l, e.Size());
    if k > 0 {
      AppendToLap(Prepare(l, e.Size()), Torn(e, k));
    }
  }

  lemma ApplyLap(l: Log, ev: Event)
    requires LogOk(l) && Possible(l, ev)
    ensures CurrentLap(Apply(l, ev)) == LapAfter(l, ev, CurrentLap(l))
  {
    match ev {
      case Written(e) =>
        WriteLap(l, e);
      case PowerCut(e, k) =>
        CutLap(l, e, k);
        SameLap(Cut(l, e, k));
      case Reboot =>
        SameLap(l);
        assert CurrentLap(l) + [] == CurrentLap(l);
    }
  }

  /** The sectors up to the head hold what was written since the last wrap. */
  lemma {:induction false} LapOfRun(l: Log, evs: seq<Event>)
    requires LogOk(l) && PossibleRun(l, evs)
    ensures CurrentLap(Run(l, evs)) == SinceWrap(l, evs, CurrentLap(l))
    decreases evs
  {
    if evs != [] {
      ApplyLap(l, evs[0]);
      LapOfRun(Apply(l, evs[0]), evs[1..]);
    }
  }

  /** Without a reboot the tail never leaves the start of the partition. */
  lemma {:induction false} TailStaysPut(l: Log, evs: seq<Event>)
    requires LogOk(l) && PossibleRun(l, evs) && l.tailSector == 0
    requires forall i :: 0 <= i < |evs| ==> evs[i].Written?
    ensures Run(l, evs).tailSector == 0
    decreases evs
  {
    if evs != [] {
      TailStaysPut(Apply(l, evs[0]), evs[1..]);
    }
  }

  /** After any number of writes and wraps, reading from a reset returns the
      entries written since the last wrap, in order, and then NOT_FOUND. */
  lemma {:induction false} ReadsSinceWrap(n: nat, evs: seq<Event>, f: seq<byte>, hops: nat, j: nat)
    requires n > 0 && PossibleRun(FreshLog(n), evs) && hops >= n
    requires forall i :: 0 <= i < |evs| ==> evs[i].Written?
    requires Holds(f, Run(FreshLog(n), evs).sectors) && j <= |SinceWrap(FreshLog(n), evs, [])|
    ensures var l := Run(FreshLog(n), evs);
            ReadLog(f, l, CursorAfter(f, l, hops, j), hops).outcome ==
            if j < |SinceWrap(FreshLog(n), evs, [])| then Found(SinceWrap(FreshLog(n), evs, [])[j]) else NotFound
  {
    var l := Run(FreshLog(n), evs);
    FreshHistory(n);
    LapOfRun(FreshLog(n), evs);
    TailStaysPut(FreshLog(n), evs);
    VisibleIsSuffix(l);
    ReadBack(f, l, hops, j);
  }

  // ---- The store performs the run -----------------------------------------------

  method Perform(store: LogStore.LogStore, n: nat, ev: Event)
    requires store.Ready() && n > 0 && store.cells.Length == n * SECTOR_SIZE
    requires Possible(store.log, ev)
    modifies store, store.cells
    ensures store.Ready() && store.log == Apply(old(store.log), ev)
    ensures store.written == old(store.written) + Effect(ev)
  {
    match ev {
      case Written(e) =>
        var _ := store.WriteBlocking(e);
      case PowerCut(e, k) =>
        store.WriteUntilPowerCut(e, k);
        store.LogInit(n);
      case Reboot =>
        store.LogInit(n);
    }
  }

  /** Carrying out a run on the flash cells. */
  method Replay(store: LogStore.LogStore, n: nat, evs: seq<Event>)
    requires store.Ready() && n > 0 && store.cells.Length == n * SECTOR_SIZE
    requires PossibleRun(store.log, evs)
    modifies store, store.cells
    ensures store.Ready() && store.log == Run(old(store.log), evs)
    ensures store.written == old(store.written) + Effects(old(store.log), evs)
    decreases evs
  {
    if evs != [] {
      ghost var l, w := store.log, store.written;
      Perform(store, n, evs[0]);
      Replay(store, n, evs[1..]);
      ConcatAssoc(w, Effect(evs[0]), Effects(Apply(l, evs[0]), evs[1..]));
    } else {
      assert store.written == store.written + [];
    }
  }
}
