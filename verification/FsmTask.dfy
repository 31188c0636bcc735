// The control task: the mutable state of the FSM and the tick that updates it.

module FsmTask {
  import opened Interlock
  import opened FsmModel

  const CMD_QUEUE_SIZE: nat := 8

  class ControlTask {
    const relays: RelayDriver
    const params: Params
    var queue: seq<Cmd>
    var enabled: bool
    var currentState: State
    var fsmError: Error
    var fsmNow: int
    var timerStart: int
    var timerEnd: int
    var thisMoveDist: real
    var remainingDistance: real
    var moveStartEncoder: int
    var sensorCount: int
    var jackStartUs: int
    var jackTransUs: int
    var jackFinishUs: int
    var jackPosUs: int
    var overrideTime: int
    var overrideCmd: Override
    var isSafe: bool

    ghost predicate Valid()
      reads this, relays, relays.onUs, relays.offUs
    {
      relays.Valid()
    }

    /** The abstract state these fields stand for. */
    ghost function Snapshot(): Fsm
      reads this
    {
      Fsm(currentState, enabled, fsmError, fsmNow, timerStart, timerEnd,
          thisMoveDist, remainingDistance, moveStartEncoder, sensorCount,
          jackStartUs, jackTransUs, jackFinishUs, jackPosUs, overrideTime, overrideCmd)
    }

    ghost function Contents(): World
      requires Valid()
      reads this, relays, relays.onUs, relays.offUs
    {
      World(Snapshot(), relays.Contents(), relays.output, isSafe)
    }

    /** Boot: everything is at rest, except what survives a reset. */
    constructor (params: Params, remaining: real, jackPosUs: int)
      ensures Valid() && fresh(relays) && fresh(relays.onUs) && fresh(relays.offUs) && queue == []
      ensures Contents() == BootWorld(remaining, jackPosUs)
    {
      relays := new RelayDriver();
      this.params := params;
      queue := [];
      enabled := true;
      currentState, fsmError, fsmNow := IDLE, NoError, 0;
      timerStart, timerEnd := 0, 0;
      thisMoveDist, remainingDistance := 0.0, remaining;
      moveStartEncoder, sensorCount := 0, 0;
      jackStartUs, jackTransUs, jackFinishUs := 0, 0, 0;
      this.jackPosUs := jackPosUs;
      overrideTime, overrideCmd := -1, OvDriveFwd;
      isSafe := true;
    }

    method SetTimer(us: int)
      modifies this`timerStart, this`timerEnd
      ensures timerStart == fsmNow && timerEnd == fsmNow + us
    {
      timerEnd := fsmNow + us;
      timerStart := fsmNow;
    }

    predicate TimerDone()
      reads this
    {
      fsmNow >= timerEnd
    }

    // ---- Entry points of other tasks ---------------------------------------------

    method FsmRequest(cmd: Cmd)
      modifies this`queue
      ensures queue == if |old(queue)| < CMD_QUEUE_SIZE then old(queue) + [cmd] else old(queue)
    {
      if |queue| < CMD_QUEUE_SIZE {
        queue := queue + [cmd];
      }
    }

    method ArmOverride(cmd: Override, us: nat)
      modifies this`overrideCmd, this`overrideTime
      ensures Snapshot() == ApplyExternal(old(Snapshot()), Arm(cmd, us))
    {
      if currentState == IDLE {
        overrideCmd := cmd;
        overrideTime := fsmNow + us;
      }
    }

    method ClearOverride()
      modifies this`overrideTime
      ensures Snapshot() == ApplyExternal(old(Snapshot()), StopOverride)
    {
      overrideTime := 0;
    }

    method OtherTasks(xs: seq<External>)
      modifies this
      ensures Snapshot() == ApplyExternals(old(Snapshot()), xs) && queue == old(queue) && isSafe == old(isSafe)
      decreases xs
    {
      if xs != [] {
        match xs[0] {
          case Arm(cmd, us) => ArmOverride(cmd, us);
          case StopOverride => ClearOverride();
          case SetRemaining(x) => remainingDistance := x;
          case ClearError => fsmError := NoError;
        }
        OtherTasks(xs[1..]);
      }
    }

    // ---- Commands -------------------------------------------------------------------

    /** Start a move from IDLE if every gate passes. */
    method BeginMove(i: Input)
      modifies this
      ensures Snapshot() == DoStart(old(Snapshot()), i, params) && queue == old(queue) && isSafe == old(isSafe)
    {
      if currentState != IDLE {
        return;
      }
      var guard := StartGuard(i, params);
      if guard != NoError {
        fsmError := guard;
        return;
      }
      fsmError := NoError;
      jackStartUs, jackTransUs, jackFinishUs := 0, 0, 0;
      Go(MOVE_START_DELAY, TRANSITION_DELAY_US);
    }

    method CalibrateTransition(i: Input, expected: State, next: State, requireBattery: bool) returns (moved: bool)
      modifies this`currentState
      ensures moved == CalibrateGate(old(Snapshot()), i, params, expected, requireBattery)
      ensures currentState == if moved then next else old(currentState)
    {
      if currentState != expected {
        return false;
      }
      if requireBattery && i.battery <= params.lowProtectionV {
        return false;
      }
      currentState := next;
      moved := true;
    }

    method CalibrateJack(cmd: Cmd, i: Input)
      requires cmd in {CalJackPrep, CalJackStart, CalJackEnd}
      modifies this
      ensures Snapshot() == Command(old(Snapshot()), cmd, i, params) && queue == old(queue) && isSafe == old(isSafe)
    {
      if cmd == CalJackPrep {
        var _ := CalibrateTransition(i, IDLE, CALIBRATE_JACK_DELAY, true);
      } else if cmd == CalJackStart {
        var moved := CalibrateTransition(i, CALIBRATE_JACK_DELAY, CALIBRATE_JACK_MOVE, true);
        if moved {
          SetTimer(CALIBRATE_JACK_MAX_TIME);
        }
      } else {
        var _ := CalibrateTransition(i, CALIBRATE_JACK_MOVE, IDLE, false);
      }
    }

    method CalibrateDrive(cmd: Cmd, i: Input)
      requires cmd in {CalDrivePrep, CalDriveStart, CalDriveEnd}
      modifies this
      ensures Snapshot() == Command(old(Snapshot()), cmd, i, params) && queue == old(queue) && isSafe == old(isSafe)
    {
      if cmd == CalDrivePrep {
        var _ := CalibrateTransition(i, IDLE, CALIBRATE_DRIVE_DELAY, true);
      } else if cmd == CalDriveStart {
        var moved := CalibrateTransition(i, CALIBRATE_DRIVE_DELAY, CALIBRATE_DRIVE_MOVE, true);
        if moved {
          SetTimer(CALIBRATE_DRIVE_MAX_TIME);
          sensorCount := 0;
        }
      } else {
        var _ := CalibrateTransition(i, CALIBRATE_DRIVE_MOVE, IDLE, false);
      }
    }

    method Obey(cmd: Cmd, i: Input)
      modifies this
      ensures Snapshot() == Command(old(Snapshot()), cmd, i, params) && queue == old(queue) && isSafe == old(isSafe)
    {
      match cmd {
        case Start =>
          if remainingDistance <= 0.0 {
            fsmError := TravelLimit;
          } else {
            thisMoveDist := RMin(params.driveDist, remainingDistance);
            BeginMove(i);
          }
        case StartIgnoreOvertravel =>
          thisMoveDist := params.driveDist;
          BeginMove(i);
        case Stop =>
          currentState := IDLE;
        case Undo =>
          if currentState != IDLE && currentState != UNDO_JACK_START {
            currentState := UNDO_JACK_START;
          }
        case Shutdown =>
          enabled := false;
        case CalJackPrep | CalJackStart | CalJackEnd =>
          CalibrateJack(cmd, i);
        case CalDrivePrep | CalDriveStart | CalDriveEnd =>
          CalibrateDrive(cmd, i);
      }
    }

    method DrainCommands(i: Input)
      modifies this
      ensures Snapshot() == Drain(old(Snapshot()), old(queue), i, params) && queue == [] && isSafe == old(isSafe)
    {
      ghost var m0, cmds := Snapshot(), queue;
      while queue != []
        invariant Drain(Snapshot(), queue, i, params) == Drain(m0, cmds, i, params)
        invariant isSafe == old(isSafe)
        decreases |queue|
      {
        var cmd := queue[0];
        queue := queue[1..];
        Obey(cmd, i);
      }
    }

    // ---- Inputs ----------------------------------------------------------------------------

    /** The sensor check: when the safety input breaks, every relay is switched
        off before anything else happens. */
    method SensorsCheck(i: Input)
      requires Valid()
      modifies this`isSafe, this`sensorCount, relays`output
      ensures Valid() && isSafe == i.safe && sensorCount == Wrap16(old(sensorCount) + i.edges)
      ensures relays.output == CheckedWire(old(Contents()), i)
    {
      sensorCount := Wrap16(sensorCount + i.edges);
      if isSafe && !i.safe {
        relays.Idle();
      }
      isSafe := i.safe;
    }

    /** A tick up to and including the command drain. */
    method ReadAndObey(i: Input)
      requires Valid() && i.cmds == queue
      modifies this, relays`output
      ensures Valid() && Snapshot() == Drained(old(Snapshot()), i, params)
      ensures queue == [] && isSafe == i.safe && relays.output == CheckedWire(old(Contents()), i)
      ensures relays.Contents() == old(relays.Contents())
    {
      OtherTasks(i.before);
      fsmNow := i.now;
      SensorsCheck(i);
      DrainCommands(i);
    }

    // ---- Transitions ------------------------------------------------------------------

    method Go(next: State, us: int)
      modifies this`currentState, this`timerStart, this`timerEnd
      ensures Snapshot() == Enter(old(Snapshot()), next, us)
    {
      currentState := next;
      SetTimer(us);
    }

    method JackDownDuration() returns (us: int)
      ensures us == JackDownTime(Snapshot(), params)
    {
      var delta := jackFinishUs - jackStartUs;
      var floor := JackTimeFloor(params);
      if delta < floor {
        delta := floor;
      }
      us := delta * 105 / 100;
    }

    /** Record a fault and lower the jack. */
    method Abort(e: Error)
      modifies this
      ensures Snapshot() == FaultUndo(old(Snapshot()), e, params) && queue == old(queue) && isSafe == old(isSafe)
    {
      fsmError := e;
      var us := JackDownDuration();
      Go(UNDO_JACK_START, us);
    }

    /** The states before the jack goes up. */
    method TransitionBeforeLift(i: Input)
      requires Valid() && currentState in {MOVE_START_DELAY, MOVE_JACK_RETRACT, MOVE_JACK_SETTLE}
      modifies this
      ensures Valid() && Snapshot() == Transition(old(Snapshot()), i, params) && queue == old(queue) && isSafe == old(isSafe)
    {
      if !i.safe {
        fsmError := SafetyTrip;
        currentState := IDLE;
      } else if currentState == MOVE_START_DELAY {
        if TimerDone() {
          if i.home {
            Go(JACK_UP_START, JackPreTime(params));
            jackStartUs := fsmNow;
          } else {
            Go(MOVE_JACK_RETRACT, Trunc(JackCap(params)));
          }
        }
      } else if currentState == MOVE_JACK_RETRACT {
        if i.home || i.jackTrip || TimerDone() {
          Go(MOVE_JACK_SETTLE, TRANSITION_DELAY_US);
        }
      } else if TimerDone() {
        Go(JACK_UP_START, JackPreTime(params));
        jackStartUs := fsmNow;
      }
    }

    /** The two jack-up phases. */
    method TransitionLifting(i: Input)
      requires Valid() && currentState in {JACK_UP_START, JACK_UP}
      modifies this
      ensures Valid() && Snapshot() == Transition(old(Snapshot()), i, params) && queue == old(queue) && isSafe == old(isSafe)
    {
      if currentState == JACK_UP_START {
        if !i.safe {
          fsmError := SafetyTrip;
          currentState := UNDO_JACK_START;
          jackFinishUs := fsmNow;
        } else if jackPosUs as real >= JackCap(params) {
          Go(DRIVE_START_DELAY, TRANSITION_DELAY_US);
          jackFinishUs := fsmNow;
        } else {
          var engaged := i.jackTrip || i.jackOver || TimerDone();
          if engaged {
            Go(JACK_UP, JackTime(params));
            jackTransUs := fsmNow;
          }
        }
      } else if !i.safe {
        jackFinishUs := fsmNow;
        Abort(SafetyTrip);
      } else if TimerDone() || i.jackTrip || jackPosUs as real >= JackCap(params) {
        Go(DRIVE_START_DELAY, TRANSITION_DELAY_US);
        jackFinishUs := fsmNow;
      }
    }

    /** The quiet pause, the fluffer alone, and the pause after driving. */
    method TransitionAroundDrive(i: Input)
      requires Valid() && currentState in {DRIVE_START_DELAY, DRIVE_FLUFF_START, DRIVE_END_DELAY}
      modifies this
      ensures Valid() && Snapshot() == Transition(old(Snapshot()), i, params) && queue == old(queue) && isSafe == old(isSafe)
    {
      if !i.safe {
        Abort(SafetyTrip);
      } else if currentState == DRIVE_START_DELAY {
        if TimerDone() {
          Go(DRIVE_FLUFF_START, params.fluffPredriveMs * 1000);
        }
      } else if currentState == DRIVE_FLUFF_START {
        if i.auxTrip {
          Abort(EfuseTrip3);
        } else if TimerDone() {
          Go(DRIVE, DriveTime(thisMoveDist, params));
          sensorCount := StartCount(thisMoveDist, params);
          moveStartEncoder := sensorCount;
        }
      } else if TimerDone() {
        var us := JackDownDuration();
        Go(JACK_DOWN, us);
      }
    }

    /** Horizontal travel. */
    method TransitionDriving(i: Input)
      requires Valid() && currentState == DRIVE
      modifies this
      ensures Valid() && Snapshot() == Transition(old(Snapshot()), i, params) && queue == old(queue) && isSafe == old(isSafe)
    {
      if !i.safe {
        Abort(SafetyTrip);
      } else if i.driveTrip {
        remainingDistance := remainingDistance - (sensorCount - moveStartEncoder) as real / params.driveKe;
        if remainingDistance < 0.0 {
          remainingDistance := 0.0;
        }
        Abort(EfuseTrip1);
      } else if TimerDone() || sensorCount > 0 {
        remainingDistance := remainingDistance - thisMoveDist;
        Go(DRIVE_END_DELAY, TRANSITION_DELAY_US);
      }
    }

    /** Lowering, calibration and idle. */
    method TransitionOther(i: Input)
      requires Valid() && currentState in {IDLE, JACK_DOWN, UNDO_JACK_START,
        CALIBRATE_JACK_DELAY, CALIBRATE_JACK_MOVE, CALIBRATE_DRIVE_DELAY, CALIBRATE_DRIVE_MOVE}
      modifies this
      ensures Valid() && Snapshot() == Transition(old(Snapshot()), i, params) && queue == old(queue) && isSafe == old(isSafe)
    {
      if currentState == JACK_DOWN {
        if i.jackTrip || i.home || TimerDone() {
          currentState := IDLE;
        }
      } else if currentState == UNDO_JACK_START {
        if !i.jackTrip {
          var us := JackDownDuration();
          Go(JACK_DOWN, us);
        }
      } else if currentState == CALIBRATE_JACK_MOVE {
        if TimerDone() {
          currentState := IDLE;
        }
      } else if currentState == CALIBRATE_DRIVE_MOVE {
        if !i.safe || TimerDone() {
          currentState := IDLE;
        }
      }
    }

    method TransitionState(i: Input)
      requires Valid()
      modifies this
      ensures Valid() && Snapshot() == Transition(old(Snapshot()), i, params) && queue == old(queue) && isSafe == old(isSafe)
    {
      match currentState {
        case MOVE_START_DELAY | MOVE_JACK_RETRACT | MOVE_JACK_SETTLE => TransitionBeforeLift(i);
        case JACK_UP_START | JACK_UP => TransitionLifting(i);
        case DRIVE_START_DELAY | DRIVE_FLUFF_START | DRIVE_END_DELAY => TransitionAroundDrive(i);
        case DRIVE => TransitionDriving(i);
        case _ => TransitionOther(i);
      }
    }

    // ---- Outputs and position ------------------------------------------------------------

    method SetOutputs(i: Input)
      requires Valid()
      modifies relays, relays.onUs, relays.offUs
      ensures Valid() && relays.output == Outputs(relays.Contents())
      ensures relays.Contents() == StepBank(old(relays.Contents()), Request(Snapshot(), i, params), fsmNow, 2 * params.inrushUs, i.safe)
    {
      var request := ALL_OFF;
      match currentState {
        case IDLE =>
          if overrideTime > fsmNow {
            match overrideCmd {
              case OvDriveFwd => if !i.driveTrip { request := Relays(Fwd, Off, Fwd); }
              case OvDriveRev => if !i.driveTrip { request := Relays(Rev, Off, Off); }
              case OvJackUp =>
                if !(i.jackTrip || jackPosUs as real >= JackCap(params)) { request := Relays(Off, Fwd, Off); }
              case OvJackUpForce => if !i.jackTrip { request := Relays(Off, Fwd, Off); }
              case OvJackDown => if !(i.home || i.jackTrip) { request := Relays(Off, Rev, Off); }
              case OvJackDownForce => if !i.jackTrip { request := Relays(Off, Rev, Off); }
              case OvAux => if !i.auxTrip { request := Relays(Off, Off, Fwd); }
            }
          }
        case CALIBRATE_JACK_MOVE | JACK_UP_START | JACK_UP => request := Relays(Off, Fwd, Off);
        case CALIBRATE_DRIVE_MOVE | DRIVE => request := Relays(Fwd, Off, Fwd);
        case MOVE_JACK_RETRACT | JACK_DOWN => request := Relays(Off, Rev, Off);
        case DRIVE_FLUFF_START | UNDO_JACK_START | DRIVE_END_DELAY => request := Relays(Off, Off, Fwd);
        case _ =>
      }
      relays.DriveRelays(request, fsmNow, params.inrushUs, i.safe);
    }

    method TrackJack(i: Input)
      modifies this`jackPosUs
      ensures Snapshot() == Track(old(Snapshot()), i, params)
    {
      var dir := Off;
      match currentState {
        case JACK_UP_START | JACK_UP | CALIBRATE_JACK_MOVE => dir := Fwd;
        case MOVE_JACK_RETRACT | JACK_DOWN => dir := Rev;
        case IDLE =>
          if overrideTime > fsmNow && !i.jackTrip {
            if (overrideCmd == OvJackUp && jackPosUs as real < JackCap(params)) || overrideCmd == OvJackUpForce {
              dir := Fwd;
            } else if overrideCmd == OvJackDown || overrideCmd == OvJackDownForce {
              dir := Rev;
            }
          }
        case _ =>
      }
      if dir == Fwd {
        jackPosUs := jackPosUs + TICK_US;
      } else if dir == Rev {
        jackPosUs := jackPosUs - TICK_US;
        if jackPosUs < 0 {
          jackPosUs := 0;
        }
      }
      if i.home {
        jackPosUs := 0;
      }
    }

    /** One pass of the loop.  The commands are those in the queue. */
    method RunTick(i: Input)
      requires Valid() && enabled && i.cmds == queue
      modifies this, relays, relays.onUs, relays.offUs
      ensures Valid() && queue == [] && Contents() == Tick(old(Contents()), i, params)
    {
      ghost var w := Contents();
      ReadAndObey(i);
      if !enabled {
        return;
      }
      TransitionState(i);
      assert Snapshot() == Moved(w.fsm, i, params);
      SetOutputs(i);
      OtherTasks(i.mid);
      TrackJack(i);
    }
  }
}
