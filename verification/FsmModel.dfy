// The 20 ms control tick as functions: commands, state transitions, relay
// requests and the jack position estimate.  Distances and rates are reals,
// times are whole microseconds.

module FsmModel {
  import opened Interlock

  const TRANSITION_DELAY_US: int := 1_000_000
  const CALIBRATE_JACK_MAX_TIME: int := 3_000_000
  const CALIBRATE_DRIVE_MAX_TIME: int := 6_000_000
  const TICK_US: int := 20_000

  datatype State =
    | IDLE | MOVE_START_DELAY | MOVE_JACK_RETRACT | MOVE_JACK_SETTLE
    | JACK_UP_START | JACK_UP | DRIVE_START_DELAY | DRIVE_FLUFF_START
    | DRIVE | DRIVE_END_DELAY | JACK_DOWN | UNDO_JACK_START
    | CALIBRATE_JACK_DELAY | CALIBRATE_JACK_MOVE
    | CALIBRATE_DRIVE_DELAY | CALIBRATE_DRIVE_MOVE

  datatype Cmd =
    | Start | StartIgnoreOvertravel | Stop | Undo | Shutdown
    | CalJackPrep | CalJackStart | CalJackEnd
    | CalDrivePrep | CalDriveStart | CalDriveEnd

  datatype Override =
    | OvDriveFwd | OvDriveRev | OvJackUp | OvJackDown | OvAux | OvJackUpForce | OvJackDownForce

  datatype Error = NoError | EfuseTrip1 | EfuseTrip2 | EfuseTrip3 | SafetyTrip | TravelLimit | LowBattery

  // The bounds of the parameter list keep a divisor from 0.
  type Divisor = x: real | x != 0.0 witness 1.0

  // The parameters the tick reads.
  datatype Params = Params(
    driveDist: real, jackDist: real, driveKe: Divisor, driveKt: real, jackKt: real,
    jackMax: real, jackPreDist: real, lowProtectionV: real,
    fluffPredriveMs: nat, inrushUs: nat) {

    /** The bounds of the parameter list. */
    predicate Bounded() {
      && 0.0 <= driveDist <= 100.0 && 0.0 <= jackDist <= 10.0
      && 1.0 <= driveKe && 1.0 <= driveKt && 1.0 <= jackKt
      && 0.0 <= jackMax <= 10.0 && 0.0 <= jackPreDist <= 10.0
    }
  }

  // What other tasks may do to the shared state.
  datatype External =
    | Arm(cmd: Override, us: nat)
    | StopOverride
    | SetRemaining(x: real)
    | ClearError

  // The inputs of one tick: other tasks' actions since the last one, the
  // clock, the debounced sensors, the fuses, the queued commands, and other
  // tasks' actions between the two override snapshots of the tick.
  datatype Input = Input(
    before: seq<External>, now: int, safe: bool, home: bool,
    driveTrip: bool, jackTrip: bool, auxTrip: bool,
    battery: real, jackOver: bool, edges: nat,
    cmds: seq<Cmd>, mid: seq<External>)

  datatype Fsm = Fsm(
    state: State, enabled: bool, error: Error, now: int,
    timerStart: int, timerEnd: int,
    moveDist: real, remaining: real, moveStartEncoder: int, encoder: int,
    jackStartUs: int, jackTransUs: int, jackFinishUs: int, jackPosUs: int,
    overrideTime: int, overrideCmd: Override)

  // ---- Arithmetic --------------------------------------------------------------

  /** Conversion of a float to an integer. */
  function Trunc(x: real): int {
    if x >= 0.0 then x.Floor else -(-x).Floor
  }

  /** Conversion to a 16-bit signed integer, wrapping. */
  function Wrap16(x: int): int {
    (x + 0x8000) % 0x1_0000 - 0x8000
  }

  function RMin(a: real, b: real): real { if a < b then a else b }

  // JACK_TIME, JACK_MAX_TIME and JACK_PRE_TIME are unparenthesised products, so
  // a cast in front of one of them truncates JACK_KT before multiplying.

  /** set_timer(JACK_TIME) */
  function JackTime(p: Params): int { Trunc(p.jackKt * p.jackDist) }

  /** (int64_t)JACK_TIME */
  function JackTimeFloor(p: Params): int { Trunc(Trunc(p.jackKt) as real * p.jackDist) }

  /** (int64_t)JACK_MAX_TIME, as the position is compared with it */
  function JackCap(p: Params): real { Trunc(p.jackKt) as real * p.jackMax }

  /** set_timer((uint64_t)JACK_PRE_TIME) */
  function JackPreTime(p: Params): int { Trunc(Trunc(p.jackKt) as real * p.jackPreDist) }

  /** set_timer(DRIVE_TIME) */
  function DriveTime(dist: real, p: Params): int { Trunc(p.driveKt * dist) }

  function Counts(dist: real, p: Params): real { p.driveKe * dist }

  /** The encoder starts at minus the planned distance and counts up to 0. */
  function StartCount(dist: real, p: Params): int { Wrap16(Trunc(-Counts(dist, p))) }

  /** The lift that was measured, at least JACK_TIME, plus 5%. */
  function JackDownTime(m: Fsm, p: Params): int {
    var delta := m.jackFinishUs - m.jackStartUs;
    (if delta < JackTimeFloor(p) then JackTimeFloor(p) else delta) * 105 / 100
  }

  function SetTimer(m: Fsm, us: int): Fsm {
    m.(timerStart := m.now, timerEnd := m.now + us)
  }

  predicate TimerDone(m: Fsm) { m.now >= m.timerEnd }

  function Enter(m: Fsm, s: State, us: int): Fsm {
    SetTimer(m, us).(state := s)
  }

  // ---- Other tasks ---------------------------------------------------------------

  function ApplyExternal(m: Fsm, x: External): Fsm {
    match x
    case Arm(cmd, us) => if m.state == IDLE then m.(overrideCmd := cmd, overrideTime := m.now + us) else m
    case StopOverride => m.(overrideTime := 0)
    case SetRemaining(d) => m.(remaining := d)
    case ClearError => m.(error := NoError)
  }

  function ApplyExternals(m: Fsm, xs: seq<External>): Fsm
    decreases xs
  {
    if xs == [] then m else ApplyExternals(ApplyExternal(m, xs[0]), xs[1..])
  }

  // ---- Commands --------------------------------------------------------------------

  /** The first failing gate of a START, in order. */
  function StartGuard(i: Input, p: Params): Error {
    if i.battery < p.lowProtectionV then LowBattery
    else if !i.safe then SafetyTrip
    else if i.driveTrip then EfuseTrip1
    else if i.jackTrip then EfuseTrip2
    else if i.auxTrip then EfuseTrip3
    else NoError
  }

  function DoStart(m: Fsm, i: Input, p: Params): Fsm {
    if m.state != IDLE then m
    else if StartGuard(i, p) != NoError then m.(error := StartGuard(i, p))
    else Enter(m.(error := NoError, jackStartUs := 0, jackTransUs := 0, jackFinishUs := 0),
               MOVE_START_DELAY, TRANSITION_DELAY_US)
  }

  function CalibrateGate(m: Fsm, i: Input, p: Params, expected: State, battery: bool): bool {
    m.state == expected && (battery ==> i.battery > p.lowProtectionV)
  }

  function Command(m: Fsm, c: Cmd, i: Input, p: Params): Fsm {
    match c
    case Start =>
      if m.remaining <= 0.0 then m.(error := TravelLimit)
      else DoStart(m.(moveDist := RMin(p.driveDist, m.remaining)), i, p)
    case StartIgnoreOvertravel => DoStart(m.(moveDist := p.driveDist), i, p)
    case Stop => m.(state := IDLE)
    case Undo => if m.state == IDLE || m.state == UNDO_JACK_START then m else m.(state := UNDO_JACK_START)
    case Shutdown => m.(enabled := false)
    case CalJackPrep =>
      if CalibrateGate(m, i, p, IDLE, true) then m.(state := CALIBRATE_JACK_DELAY) else m
    case CalJackStart =>
      if CalibrateGate(m, i, p, CALIBRATE_JACK_DELAY, true)
      then Enter(m, CALIBRATE_JACK_MOVE, CALIBRATE_JACK_MAX_TIME) else m
    case CalJackEnd =>
      if CalibrateGate(m, i, p, CALIBRATE_JACK_MOVE, false) then m.(state := IDLE) else m
    case CalDrivePrep =>
      if CalibrateGate(m, i, p, IDLE, true) then m.(state := CALIBRATE_DRIVE_DELAY) else m
    case CalDriveStart =>
      if CalibrateGate(m, i, p, CALIBRATE_DRIVE_DELAY, true)
      then Enter(m, CALIBRATE_DRIVE_MOVE, CALIBRATE_DRIVE_MAX_TIME).(encoder := 0) else m
    case CalDriveEnd =>
      if CalibrateGate(m, i, p, CALIBRATE_DRIVE_MOVE, false) then m.(state := IDLE) else m
  }

  function Drain(m: Fsm, cmds: seq<Cmd>, i: Input, p: Params): Fsm
    decreases cmds
  {
    if cmds == [] then m else Drain(Command(m, cmds[0], i, p), cmds[1..], i, p)
  }

  // ---- State transitions -----------------------------------------------------------

  /** Safety broke before the jack was raised: just stop. */
  function SafetyStop(m: Fsm): Fsm {
    m.(error := SafetyTrip, state := IDLE)
  }

  /** Lower the jack after a fault. */
  function FaultUndo(m: Fsm, e: Error, p: Params): Fsm {
    Enter(m.(error := e), UNDO_JACK_START, JackDownTime(m, p))
  }

  function FromMoveStartDelay(m: Fsm, i: Input, p: Params): Fsm {
    if !i.safe then SafetyStop(m)
    else if !TimerDone(m) then m
    else if i.home then Enter(m, JACK_UP_START, JackPreTime(p)).(jackStartUs := m.now)
    else Enter(m, MOVE_JACK_RETRACT, Trunc(JackCap(p)))
  }

  function FromRetract(m: Fsm, i: Input): Fsm {
    if !i.safe then SafetyStop(m)
    else if i.home || i.jackTrip || TimerDone(m) then Enter(m, MOVE_JACK_SETTLE, TRANSITION_DELAY_US)
    else m
  }

  function FromSettle(m: Fsm, i: Input, p: Params): Fsm {
    if !i.safe then SafetyStop(m)
    else if TimerDone(m) then Enter(m, JACK_UP_START, JackPreTime(p)).(jackStartUs := m.now)
    else m
  }

  function FromJackUpStart(m: Fsm, i: Input, p: Params): Fsm {
    if !i.safe then m.(error := SafetyTrip, state := UNDO_JACK_START, jackFinishUs := m.now)
    else if m.jackPosUs as real >= JackCap(p) then
      Enter(m, DRIVE_START_DELAY, TRANSITION_DELAY_US).(jackFinishUs := m.now)
    else if i.jackTrip || i.jackOver || TimerDone(m) then
      Enter(m, JACK_UP, JackTime(p)).(jackTransUs := m.now)
    else m
  }

  function FromJackUp(m: Fsm, i: Input, p: Params): Fsm {
    if !i.safe then FaultUndo(m.(jackFinishUs := m.now), SafetyTrip, p)
    else if TimerDone(m) || i.jackTrip || m.jackPosUs as real >= JackCap(p) then
      Enter(m, DRIVE_START_DELAY, TRANSITION_DELAY_US).(jackFinishUs := m.now)
    else m
  }

  function FromDriveStartDelay(m: Fsm, i: Input, p: Params): Fsm {
    if !i.safe then FaultUndo(m, SafetyTrip, p)
    else if TimerDone(m) then Enter(m, DRIVE_FLUFF_START, p.fluffPredriveMs * 1000)
    else m
  }

  function FromFluffStart(m: Fsm, i: Input, p: Params): Fsm {
    if !i.safe then FaultUndo(m, SafetyTrip, p)
    else if i.auxTrip then FaultUndo(m, EfuseTrip3, p)
    else if TimerDone(m) then
      Enter(m, DRIVE, DriveTime(m.moveDist, p)).(
        encoder := StartCount(m.moveDist, p), moveStartEncoder := StartCount(m.moveDist, p))
    else m
  }

  function Travelled(m: Fsm, p: Params): real {
    (m.encoder - m.moveStartEncoder) as real / p.driveKe
  }

  function FromDrive(m: Fsm, i: Input, p: Params): Fsm {
    if !i.safe then FaultUndo(m, SafetyTrip, p)
    else if i.driveTrip then
      var left := m.remaining - Travelled(m, p);
      FaultUndo(m.(remaining := if left < 0.0 then 0.0 else left), EfuseTrip1, p)
    else if TimerDone(m) || m.encoder > 0 then
      Enter(m, DRIVE_END_DELAY, TRANSITION_DELAY_US).(remaining := m.remaining - m.moveDist)
    else m
  }

  function FromDriveEndDelay(m: Fsm, i: Input, p: Params): Fsm {
    if !i.safe then FaultUndo(m, SafetyTrip, p)
    else if TimerDone(m) then Enter(m, JACK_DOWN, JackDownTime(m, p))
    else m
  }

  function FromJackDown(m: Fsm, i: Input): Fsm {
    if i.jackTrip || i.home || TimerDone(m) then m.(state := IDLE) else m
  }

  function FromUndo(m: Fsm, i: Input, p: Params): Fsm {
    if i.jackTrip then m else Enter(m, JACK_DOWN, JackDownTime(m, p))
  }

  function Transition(m: Fsm, i: Input, p: Params): Fsm {
    match m.state
    case IDLE => m
    case MOVE_START_DELAY => FromMoveStartDelay(m, i, p)
    case MOVE_JACK_RETRACT => FromRetract(m, i)
    case MOVE_JACK_SETTLE => FromSettle(m, i, p)
    case JACK_UP_START => FromJackUpStart(m, i, p)
    case JACK_UP => FromJackUp(m, i, p)
    case DRIVE_START_DELAY => FromDriveStartDelay(m, i, p)
    case DRIVE_FLUFF_START => FromFluffStart(m, i, p)
    case DRIVE => FromDrive(m, i, p)
    case DRIVE_END_DELAY => FromDriveEndDelay(m, i, p)
    case JACK_DOWN => FromJackDown(m, i)
    case UNDO_JACK_START => FromUndo(m, i, p)
    case CALIBRATE_JACK_DELAY => m
    case CALIBRATE_JACK_MOVE => if TimerDone(m) then m.(state := IDLE) else m
    case CALIBRATE_DRIVE_DELAY => m
    case CALIBRATE_DRIVE_MOVE => if !i.safe || TimerDone(m) then m.(state := IDLE) else m
  }

  // ---- Relay requests ----------------------------------------------------------------

  function OverrideRequest(m: Fsm, i: Input, p: Params): Relays {
    match m.overrideCmd
    case OvDriveFwd => if i.driveTrip then ALL_OFF else Relays(Fwd, Off, Fwd)
    case OvDriveRev => if i.driveTrip then ALL_OFF else Relays(Rev, Off, Off)
    case OvJackUp => if i.jackTrip || m.jackPosUs as real >= JackCap(p) then ALL_OFF else Relays(Off, Fwd, Off)
    case OvJackUpForce => if i.jackTrip then ALL_OFF else Relays(Off, Fwd, Off)
    case OvJackDown => if i.home || i.jackTrip then ALL_OFF else Relays(Off, Rev, Off)
    case OvJackDownForce => if i.jackTrip then ALL_OFF else Relays(Off, Rev, Off)
    case OvAux => if i.auxTrip then ALL_OFF else Relays(Off, Off, Fwd)
  }

  function Request(m: Fsm, i: Input, p: Params): Relays {
    match m.state
    case IDLE => if m.overrideTime > m.now then OverrideRequest(m, i, p) else ALL_OFF
    case CALIBRATE_JACK_MOVE | JACK_UP_START | JACK_UP => Relays(Off, Fwd, Off)
    case CALIBRATE_DRIVE_MOVE | DRIVE => Relays(Fwd, Off, Fwd)
    case MOVE_JACK_RETRACT | JACK_DOWN => Relays(Off, Rev, Off)
    case MOVE_JACK_SETTLE | DRIVE_START_DELAY => ALL_OFF
    case DRIVE_FLUFF_START | UNDO_JACK_START | DRIVE_END_DELAY => Relays(Off, Off, Fwd)
    case _ => ALL_OFF
  }

  // ---- Jack position ------------------------------------------------------------------

  /** The direction the position estimate assumes for this tick. */
  function TrackedDir(m: Fsm, i: Input, p: Params): Dir {
    match m.state
    case JACK_UP_START | JACK_UP | CALIBRATE_JACK_MOVE => Fwd
    case MOVE_JACK_RETRACT | JACK_DOWN => Rev
    case IDLE =>
      if m.overrideTime > m.now && !i.jackTrip then
        if (m.overrideCmd == OvJackUp && m.jackPosUs as real < JackCap(p)) || m.overrideCmd == OvJackUpForce then Fwd
        else if m.overrideCmd == OvJackDown || m.overrideCmd == OvJackDownForce then Rev
        else Off
      else Off
    case _ => Off
  }

  function Track(m: Fsm, i: Input, p: Params): Fsm {
    var d := TrackedDir(m, i, p);
    var moved :=
      if d == Fwd then m.jackPosUs + TICK_US
      else if d == Rev then (if m.jackPosUs < TICK_US then 0 else m.jackPosUs - TICK_US)
      else m.jackPosUs;
    m.(jackPosUs := if i.home then 0 else moved)
  }

  // ---- One tick -------------------------------------------------------------------------

  /** Up to and including the command drain. */
  function Drained(m: Fsm, i: Input, p: Params): Fsm {
    var b := ApplyExternals(m, i.before);
    Drain(b.(now := i.now, encoder := Wrap16(b.encoder + i.edges)), i.cmds, i, p)
  }

  /** Up to and including the state transition. */
  function Moved(m: Fsm, i: Input, p: Params): Fsm {
    Transition(Drained(m, i, p), i, p)
  }

  // bank is what the interlock remembers, wire the word last written to the
  // relays, isSafe the debounced safety input.
  datatype World = World(fsm: Fsm, bank: Bank, wire: Relays, isSafe: bool)

  /** The relay word after the sensors were checked: all off when the safety
      input has just broken. */
  function CheckedWire(w: World, i: Input): Relays {
    if w.isSafe && !i.safe then ALL_OFF else w.wire
  }

  /** Everything at rest, except what survives a reset. */
  function BootWorld(remaining: real, jackPosUs: int): World {
    World(Fsm(IDLE, true, NoError, 0, 0, 0, 0.0, remaining, 0, 0, 0, 0, 0, jackPosUs, -1, OvDriveFwd),
          Bank(Bridge(Off, 0, 0), Bridge(Off, 0, 0), Bridge(Off, 0, 0)), ALL_OFF, true)
  }

  function Tick(w: World, i: Input, p: Params): World {
    var d := Drained(w.fsm, i, p);
    if !w.fsm.enabled then w
    else if !d.enabled then World(d, w.bank, CheckedWire(w, i), i.safe)
    else
      var m := Moved(w.fsm, i, p);
      var bank := StepBank(w.bank, Request(m, i, p), m.now, 2 * p.inrushUs, i.safe);
      World(Track(ApplyExternals(m, i.mid), i, p), bank, Outputs(bank), i.safe)
  }
}
