// What the pieces of the log promise together.

module LogTheorems {
  import opened Flash
  import opened LogModel
  import opened LogHistory
  import opened LogParser
  import opened LogRecovery
  import opened LogRuns
  import opened LogStream

  // ---- Recovery ------------------------------------------------------------------

  /** Head and tail both come back exactly, for a log whose tail never moved,
      if and only if the head has not wrapped or is back in the last sector. */
  lemma RecoveryExactIff(f: seq<byte>, l: Log)
    requires LogOk(l) && Holds(f, l.sectors) && l.tailSector == 0
    ensures (RecoveredHead(f, |l.sectors|) == HeadOffset(l) && RecoveredTail(f, |l.sectors|) == TailOffset(l))
       <==> (!l.wrapped || l.at + 1 == |l.sectors|)
  {
    HeadExactIff(f, l);
    HalvingReachesSmall(|l.sectors|);
    if HeadRecoverable(l) {
      RecoveryIs(f, l);
    }
  }

  /** Power fails after k bytes of an entry, in the first lap.  The scan puts
      the head on an erased byte just past the torn slot, the tail back at the
      start, and the log reads as before with the torn entry at its end. */
  lemma {:induction false} PowerCutRecovery(f: seq<byte>, l: Log, e: Entry, k: nat)
    requires LogOk(l) && e.Fits() && k <= e.Size() && l.tailSector == 0
    requires !Cut(l, e, k).wrapped && Holds(f, Cut(l, e, k).sectors)
    ensures var n := |l.sectors|;
            var head := RecoveredHead(f, n);
            && head == HeadOffset(Prepare(l, e.Size())) + (if k == 0 then 0 else e.Size())
            && head < |f| && f[head] == ERASED
            && RecoveredTail(f, n) == 0
            && Visible(Rebooted(Cut(l, e, k))) == Visible(l) + (if k == 0 then [] else [Torn(e, k)])
  {
    RecoveryIs(f, Cut(l, e, k));
    HeadIsErased(f, Cut(l, e, k));
    CutHead(l, e, k);
    CutShowsAll(l, e, k);
  }

  lemma HeadIsErased(f: seq<byte>, l: Log)
    requires LogOk(l) && Holds(f, l.sectors)
    ensures HeadOffset(l) < |f| && f[HeadOffset(l)] == ERASED
  {
    FillerOnFlash(f, l.sectors, l.at);
  }

  lemma CutHead(l: Log, e: Entry, k: nat)
    requires LogOk(l) && e.Fits() && k <= e.Size()
    ensures HeadOffset(Rebooted(Cut(l, e, k))) == HeadOffset(Prepare(l, e.Size())) + (if k == 0 then 0 else e.Size())
  {
    if k > 0 {
      var p := Prepare(l, e.Size());
      EncodeAllSnoc(p.sectors[p.at].entries, Torn(e, k));
    }
  }

  lemma CutShowsAll(l: Log, e: Entry, k: nat)
    requires LogOk(l) && e.Fits() && k <= e.Size() && l.tailSector == 0 && !Cut(l, e, k).wrapped
    ensures Visible(Rebooted(Cut(l, e, k))) == Visible(l) + (if k == 0 then [] else [Torn(e, k)])
  {
    var p, c := Prepare(l, e.Size()), Cut(l, e, k);
    VisibleIsSuffix(l);
    VisibleIsSuffix(Rebooted(c));
    if MustAdvance(l, e.Size()) {
      AdvanceWithinLap(l);
    }
    if k > 0 {
      AppendToLap(p, Torn(e, k));
    }
  }

  /** The record of a torn slot: its type byte reads as erased, or its first
      payload byte is taken for the type. */
  predicate TornRecord(r: Parsed, e: Entry) {
    e.kind == ERASED && DecodesAs(r, e) && (!ReadTypeFirst(e) ==> r.shape == Unknown)
  }

  /** After such a cut and the boot that follows, a download decodes to every
      earlier entry, unchanged and in order, and one record for the torn one. */
  lemma {:induction false} CutDownload(f: seq<byte>, l: Log, e: Entry, k: nat)
    requires LogOk(l) && Aligned(e) && k <= e.Size() && l.tailSector == 0
    requires !Cut(l, e, k).wrapped && Holds(f, Cut(l, e, k).sectors)
    requires AllAligned(Visible(l))
    ensures var head, tail := RecoveredHead(f, |l.sectors|), RecoveredTail(f, |l.sectors|);
            && tail <= |f| && head <= |f|
            && var records := ParseFrom(StreamBytes(f, tail, head), 0);
               && |records| == |Visible(l)| + (if k == 0 then 0 else 1)
               && Decoded(records[..|Visible(l)|], Visible(l))
               && (0 < k < e.Size() ==> TornRecord(records[|Visible(l)|], Torn(e, k)))
               && (k == e.Size() && Unambiguous(e) ==> Recovers(records[|Visible(l)|], e))
  {
    RecoveryIs(f, Cut(l, e, k));
    CutRecords(l, e, k);
    StreamRecords(f, Rebooted(Cut(l, e, k)));
    ParsedAsDecodes(Visible(l));
    TornRecords(e, k);
  }

  lemma TornRecords(e: Entry, k: nat)
    requires Aligned(e) && k <= e.Size()
    ensures 0 < k < e.Size() ==> TornRecord(RecordOf(Torn(e, k)), Torn(e, k))
    ensures k == e.Size() ==> Torn(e, k) == e
    ensures Unambiguous(e) ==> Recovers(RecordOf(e), e)
  {
    if 0 < k < e.Size() {
      TornIsAligned(e, k);
    } else if k > 0 {
      TornBytes(e, k);
    }
  }

  lemma {:induction false} CutRecords(l: Log, e: Entry, k: nat)
    requires LogOk(l) && Aligned(e) && k <= e.Size() && l.tailSector == 0 && !Cut(l, e, k).wrapped
    requires AllAligned(Visible(l))
    ensures var v := Visible(Rebooted(Cut(l, e, k)));
            && AllAligned(v)
            && ParsedAs(v) == ParsedAs(Visible(l)) + if k == 0 then [] else [RecordOf(Torn(e, k))]
  {
    CutShowsAll(l, e, k);
    if k == 0 {
      assert Visible(l) + [] == Visible(l);
      assert ParsedAs(Visible(l)) + [] == ParsedAs(Visible(l));
    } else {
      CutIsAligned(e, k);
      RecordsSnoc(Visible(l), Torn(e, k));
    }
  }

  lemma RecordsSnoc(es: seq<Entry>, e: Entry)
    requires AllAligned(es) && Aligned(e)
    ensures AllAligned(es + [e]) && ParsedAs(es + [e]) == ParsedAs(es) + [RecordOf(e)]
  {
    ParsedAsConcat(es, [e]);
    assert ParsedAs([e]) == [RecordOf(e)];
  }

  lemma CutIsAligned(e: Entry, k: nat)
    requires Aligned(e) && k <= e.Size()
    ensures k > 0 ==> Aligned(Torn(e, k))
  {
    if 0 < k < e.Size() {
      TornIsAligned(e, k);
    } else if k > 0 {
      TornBytes(e, k);
    }
  }

  // ---- Round trip over runs ------------------------------------------------------

  /** A run in which the firmware writes only what it emits, whole or torn by a
      power cut. */
  ghost predicate EmitsOnly(evs: seq<Event>) {
    forall i :: 0 <= i < |evs| ==> evs[i].Reboot? || Emitted(evs[i].entry)
  }

  /** An entry whose type byte was programmed. */
  predicate Whole(e: Entry) { e.kind != ERASED }

  /** What such a run leaves on flash: emitted entries, and torn ones. */
  predicate FromFirmware(e: Entry) {
    if Whole(e) then Emitted(e) else Aligned(e)
  }

  lemma {:induction false} EffectsFromFirmware(l: Log, evs: seq<Event>)
    requires LogOk(l) && PossibleRun(l, evs) && EmitsOnly(evs)
    ensures forall i :: 0 <= i < |Effects(l, evs)| ==> FromFirmware(Effects(l, evs)[i])
    decreases evs
  {
    if evs != [] {
      EffectsFromFirmware(Apply(l, evs[0]), evs[1..]);
    }
  }

  lemma FirmwareSuffix(s: seq<Entry>, t: seq<Entry>)
    requires IsSuffix(s, t) && forall i :: 0 <= i < |t| ==> FromFirmware(t[i])
    ensures AllAligned(s)
    ensures forall i :: 0 <= i < |s| && Whole(s[i]) ==> Emitted(s[i])
  {
    forall i | 0 <= i < |s|
      ensures Aligned(s[i])
      ensures Whole(s[i]) ==> Emitted(s[i])
    {
      assert s[i] == t[|t| - |s| + i];
      if Whole(s[i]) {
        EmittedIsUnambiguous(s[i]);
      }
    }
  }

  /** For every run writing only what the firmware emits, across any number of
      wraps, reboots and power cuts inside entries, a full download decodes to
      one record for each visible entry, in order; the visible log is a suffix
      of what was written; and every whole entry, before or after the torn
      ones, decodes to itself. */
  lemma {:induction false} DownloadDecodes(n: nat, evs: seq<Event>, f: seq<byte>)
    requires n > 0 && PossibleRun(FreshLog(n), evs) && EmitsOnly(evs)
    requires Holds(f, Run(FreshLog(n), evs).sectors)
    ensures var l := Run(FreshLog(n), evs);
            && TailOffset(l) <= |f| && HeadOffset(l) <= |f|
            && IsSuffix(Visible(l), Effects(FreshLog(n), evs))
            && var records := ParseFrom(StreamBytes(f, TailOffset(l), HeadOffset(l)), 0);
               && |records| == |Visible(l)|
               && forall i :: 0 <= i < |records| && Whole(Visible(l)[i]) ==>
                    && records[i].kind == Visible(l)[i].kind
                    && records[i].payload == Visible(l)[i].payload
                    && ShapeTellsType(records[i])
  {
    VisibleOfRun(n, evs);
    EffectsFromFirmware(FreshLog(n), evs);
    FirmwareSuffix(Visible(Run(FreshLog(n), evs)), Effects(FreshLog(n), evs));
    RoundTrip(f, Run(FreshLog(n), evs));
  }

  /** An entry log_write accepts and the decoder misreads: twelve bytes of
      payload under type 13, before padding. */
  lemma GuessCanFail()
    ensures var e := Entry(Fill(1, 12), 13);
            e.Fits() && IsValidEntryType(e.kind) && !Unambiguous(e) && !DecodesBefore(e, [0])
  {
    var e := Entry(Fill(1, 12), 13);
    WrongFirst(e, [0]);
  }
}
