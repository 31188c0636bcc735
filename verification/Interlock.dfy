// The relay interlock: every bridge remembers when it last went on and off,
// never reverses directly, and stays off for a while before going on again.

module Interlock {

  datatype Dir = Off | Fwd | Rev | On

  datatype BridgeId = Drive | Jack | Aux

  // last is the output of the tick before; offUs and onUs its last changes.
  datatype Bridge = Bridge(last: Dir, offUs: int, onUs: int)

  /** One bridge, one tick: the new bridge's `last` is the output. */
  function StepBridge(b: Bridge, request: Dir, now: int, hold: nat): Bridge {
    if request == b.last then b
    else if b.last == Off then
      if now > b.offUs + hold then Bridge(request, b.offUs, now) else b
    else b.(last := Off, offUs := now)
  }

  // What is asked of a bridge in one tick; cut is the safety override, which
  // acts after the interlock and only on DRIVE.
  datatype Ask = Ask(request: Dir, now: int, cut: bool)

  function StepCut(b: Bridge, a: Ask, hold: nat): Bridge {
    var r := StepBridge(b, a.request, a.now, hold);
    if a.cut then r.(last := Off) else r
  }

  datatype Relays = Relays(drive: Dir, jack: Dir, aux: Dir)

  const ALL_OFF: Relays := Relays(Off, Off, Off)

  datatype Bank = Bank(drive: Bridge, jack: Bridge, aux: Bridge)

  function Outputs(k: Bank): Relays {
    Relays(k.drive.last, k.jack.last, k.aux.last)
  }

  /** One awake tick of the whole bank. */
  function StepBank(k: Bank, request: Relays, now: int, hold: nat, safe: bool): Bank {
    Bank(StepCut(k.drive, Ask(request.drive, now, !safe), hold),
         StepBridge(k.jack, request.jack, now, hold),
         StepBridge(k.aux, request.aux, now, hold))
  }

  // ---- The driver as it is: per-bridge times and the last relay word -------------

  class RelayDriver {
    const onUs: array<int>
    const offUs: array<int>
    var lastRelayState: Relays
    // The word last written to the relay outputs.
    var output: Relays

    ghost predicate Valid()
      reads this, onUs, offUs
    {
      onUs.Length == 3 && offUs.Length == 3 && onUs != offUs
    }

    ghost function Contents(): Bank
      requires Valid()
      reads this, onUs, offUs
    {
      Bank(Bridge(lastRelayState.drive, offUs[0], onUs[0]),
           Bridge(lastRelayState.jack, offUs[1], onUs[1]),
           Bridge(lastRelayState.aux, offUs[2], onUs[2]))
    }

    constructor ()
      ensures Valid() && fresh(onUs) && fresh(offUs)
      ensures Contents() == Bank(Bridge(Off, 0, 0), Bridge(Off, 0, 0), Bridge(Off, 0, 0)) && output == ALL_OFF
    {
      onUs := new int[3](_ => 0);
      offUs := new int[3](_ => 0);
      lastRelayState, output := ALL_OFF, ALL_OFF;
    }

    /** Switch every bridge off at once, past the interlock, which keeps what it
        remembers. */
    method Idle()
      modifies this`output
      ensures output == ALL_OFF
    {
      output := ALL_OFF;
    }

    /** The transition rules for one bridge. */
    method Transition(b: nat, last: Dir, request: Dir, now: int, hold: nat) returns (out: Dir)
      requires Valid() && b < 3
      modifies onUs, offUs
      ensures Valid()
      ensures Bridge(out, offUs[b], onUs[b]) == StepBridge(Bridge(last, old(offUs[b]), old(onUs[b])), request, now, hold)
      ensures forall j :: 0 <= j < 3 && j != b ==> onUs[j] == old(onUs[j]) && offUs[j] == old(offUs[j])
    {
      out := request;
      if request == last {
      } else if last != Off && request == Off {
        offUs[b] := now;
      } else if last == Off && request != Off {
        if now > offUs[b] + hold {
          onUs[b] := now;
        } else {
          out := Off;
        }
      } else {
        offUs[b] := now;
        out := Off;
      }
    }

    /** Drive the relays of an awake device. */
    method DriveRelays(request: Relays, now: int, inrushUs: nat, safe: bool)
      requires Valid()
      modifies this, onUs, offUs
      ensures Valid() && Contents() == StepBank(old(Contents()), request, now, 2 * inrushUs, safe)
      ensures output == Outputs(Contents())
    {
      var drive := Transition(0, lastRelayState.drive, request.drive, now, 2 * inrushUs);
      var jack := Transition(1, lastRelayState.jack, request.jack, now, 2 * inrushUs);
      var aux := Transition(2, lastRelayState.aux, request.aux, now, 2 * inrushUs);
      if !safe {
        drive := Off;
      }
      lastRelayState := Relays(drive, jack, aux);
      output := lastRelayState;
    }
  }

  // ---- Whole runs of one bridge ----------------------------------------------------

  /** The bridge before each of the asks, and after the last. */
  function After(b: Bridge, asks: seq<Ask>, hold: nat): Bridge
    decreases asks
  {
    if asks == [] then b else StepCut(After(b, asks[..|asks| - 1], hold), asks[|asks| - 1], hold)
  }

  /** The output of tick i. */
  function Output(b: Bridge, asks: seq<Ask>, hold: nat, i: nat): Dir
    requires i < |asks|
  {
    After(b, asks[..i + 1], hold).last
  }

  ghost predicate Monotone(asks: seq<Ask>) {
    forall i, j :: 0 <= i < j < |asks| ==> asks[i].now <= asks[j].now
  }

  lemma AfterStep(b: Bridge, asks: seq<Ask>, hold: nat, i: nat)
    requires i < |asks|
    ensures After(b, asks[..i + 1], hold) == StepCut(After(b, asks[..i], hold), asks[i], hold)
  {
    assert asks[..i + 1][..i] == asks[..i];
  }

  /** The output is the request or OFF, and two consecutive outputs that are
      both on are the same: no direct reversal. */
  lemma NoDirectReversal(b: Bridge, asks: seq<Ask>, hold: nat, i: nat)
    requires i < |asks|
    ensures Output(b, asks, hold, i) in {asks[i].request, Off}
    ensures i > 0 && Output(b, asks, hold, i - 1) != Off && Output(b, asks, hold, i) != Off ==>
              Output(b, asks, hold, i) == Output(b, asks, hold, i - 1)
  {
    AfterStep(b, asks, hold, i);
  }

  /** Tick i turned the bridge off. */
  ghost predicate TurnsOff(b: Bridge, asks: seq<Ask>, hold: nat, i: nat) {
    i < |asks| && After(b, asks[..i], hold).last != Off && Output(b, asks, hold, i) == Off
  }

  lemma {:induction false} StaysOff(b: Bridge, asks: seq<Ask>, hold: nat, i: nat, j: nat)
    requires i <= j < |asks| && Monotone(asks)
    requires After(b, asks[..i + 1], hold).last == Off && After(b, asks[..i + 1], hold).offUs >= asks[i].now
    requires asks[j].now <= asks[i].now + hold
    ensures Output(b, asks, hold, j) == Off && After(b, asks[..j + 1], hold) == After(b, asks[..i + 1], hold)
    decreases j - i
  {
    if i < j {
      StaysOff(b, asks, hold, i, j - 1);
      AfterStep(b, asks, hold, j);
    }
  }

  /** Hold-off: after being turned off by the interlock at tick i, the bridge
      stays off at every tick up to `hold` later.  For JACK and AUX, which have
      no safety cut, that is every turn-off. */
  lemma HoldOff(b: Bridge, asks: seq<Ask>, hold: nat, i: nat, j: nat)
    requires Monotone(asks) && TurnsOff(b, asks, hold, i)
    requires !asks[i].cut || asks[i].request != After(b, asks[..i], hold).last
    requires i <= j < |asks| && asks[j].now <= asks[i].now + hold
    ensures Output(b, asks, hold, j) == Off
  {
    AfterStep(b, asks, hold, i);
    StaysOff(b, asks, hold, i, j);
  }

  /** A bridge that is on went on later than its last turn-off plus the hold. */
  ghost predicate OnIsLate(b: Bridge, hold: nat) {
    b.last != Off ==> b.offUs + hold < b.onUs
  }

  lemma {:induction false} OnIsLateAlways(b: Bridge, asks: seq<Ask>, hold: nat)
    requires OnIsLate(b, hold)
    ensures OnIsLate(After(b, asks, hold), hold)
    decreases |asks|
  {
    if asks != [] {
      OnIsLateAlways(b, asks[..|asks| - 1], hold);
    }
  }

  /** The bridge stays off through the hold after a tick at time t, whatever is
      asked next. */
  ghost predicate HoldsFrom(b: Bridge, t: int, hold: nat) {
    forall a: Ask :: t <= a.now <= t + hold ==> StepCut(b, a, hold).last == Off
  }

  /** Exactly when a turn-off is followed by the full hold-off: when the
      interlock itself made the cut, not when only the safety override did. */
  lemma HoldOffIff(b: Bridge, a: Ask, hold: nat)
    requires hold > 0 && b.last != Off && OnIsLate(b, hold) && b.onUs <= a.now
    requires StepCut(b, a, hold).last == Off
    ensures HoldsFrom(StepCut(b, a, hold), a.now, hold) <==> a.request != b.last
  {
    var r := StepCut(b, a, hold);
    if a.request == b.last {
      var again := Ask(a.request, a.now + hold, false);
      assert StepCut(r, again, hold).last == a.request;
    }
  }

  /** A request that is held is granted at the first tick past the hold. */
  lemma {:induction false} Granted(b: Bridge, asks: seq<Ask>, hold: nat, i: nat, j: nat)
    requires i < j < |asks| && Monotone(asks)
    requires TurnsOff(b, asks, hold, i) && After(b, asks[..i + 1], hold).offUs <= asks[i].now
    requires forall k :: i < k <= j ==> asks[k].request == asks[j].request && !asks[k].cut
    requires asks[j].request != Off && asks[j].now > asks[i].now + hold
    ensures Output(b, asks, hold, j) == asks[j].request
  {
    GrantedOrWaiting(b, asks, hold, i, j - 1, asks[j].request);
    AfterStep(b, asks, hold, j);
  }

  /** While one request is held after a turn-off the bridge either still waits,
      with its turn-off time unchanged, or has granted it. */
  lemma {:induction false} GrantedOrWaiting(b: Bridge, asks: seq<Ask>, hold: nat, i: nat, k: nat, d: Dir)
    requires i <= k < |asks| && d != Off && After(b, asks[..i + 1], hold).last == Off
    requires forall m :: i < m <= k ==> asks[m].request == d && !asks[m].cut
    ensures var r := After(b, asks[..k + 1], hold);
            r.last == d || r == After(b, asks[..i + 1], hold)
    decreases k - i
  {
    if i < k {
      GrantedOrWaiting(b, asks, hold, i, k - 1, d);
      AfterStep(b, asks, hold, k);
    }
  }
}
