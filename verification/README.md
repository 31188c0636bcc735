# Verified model of the StockCropper controller firmware

The repository is the firmware of a solar-powered machine that, a few times a
day, raises itself on a jack, drives a few feet and lowers itself again, plus
the host tool that decodes its flash log. This project models the parts where
a mistake loses data or moves a motor, and proves what they promise over all
inputs and whole runs.

**The flash log** (`Flash`, `LogModel`, `LogStore`, `LogRecovery`,
`LogHistory`, `LogReader`, `LogParser`, `LogStream`, `LogRuns`,
`LogTheorems`,
`LogFailures`). Flash is an array of bytes on which programming can only clear
bits and erasing sets a sector to 0xFF. `LogStore.LogStore` is the writer, its
queue, the boot scan and the reader, working on that array; every byte it
programs is proved to be erased at that moment. An abstract log (sectors of
entries, a head sector, a tail sector) is kept beside the bytes and proved to
be exactly what they hold, across any number of wraps, reboots and power cuts.
On top of that: the boot scan recovers head and tail (with the exact condition
once the head has wrapped), reading back and downloading give the visible
entries in order, and the host decoder undoes the firmware's encoding.

**The control tick** (`Interlock`, `FsmModel`, `FsmTask`, `FsmSafety`,
`FsmTermination`, `FsmJack`, `FsmDistance`, `FsmMove`, `FsmLoop`, `FsmInputs`).
`FsmTask.ControlTask`
is the 20 ms task: drain commands, take a transition, set outputs through the
per-bridge interlock, track the jack position. It refines the function
`FsmModel.Tick`, about whose runs the safety, termination, height, jack-down
and distance results are proved. What other tasks do to the shared state
(arming and clearing the jog override, setting the remaining distance,
clearing the error) happens in lists of actions before a tick and between its
two looks at the override. `FsmMove` says, apart from that function, what each
relay is on for and what a move does from START to rest. `FsmInputs` joins the tick to the jack's fuse, which
clears in UNDO so that no move hangs there, and to the safety debouncer.

**The e-fuse** (`Efuse`), over the reals. **The safety debouncer**
(`Debounce`), against a definition by the whole input history. **The schedule
and the parameter store** (`Schedule`, `ParamStore`, `ParamRuns`, `ParamList`):
the in-place sort, the next alarm, and the table of 65 parameters as 16-byte
unions, set by clients, packed with an arbitrary checksum function, committed,
reset and loaded, over every run of these.

Where the code and its own comments or intent differ, the model follows the
code:

- Once the head has wrapped, the first bisection (`main/storage.c:938-945`)
  finds it only when its distance to the last sector is the sector count
  halved one or more times; otherwise the head is put at the end of the
  partition (`RecoveredHeadIs`, `HeadExactIff`). On any partition of three or
  more sectors writes alone lead there (`WritesLoseTheHead`).
- Power lost inside the zero padding leaves a head that later boots put on top
  of the entries written since, exactly when the padding was begun and not
  finished (`PaddingCutIff`), although the comment at `main/storage.c:810-811`
  expects readers to tolerate partial padding.
- Reading with the tail ahead of the head never comes to an end
  (`ReadingEndsIff`): stepping over the partition's end sets the cursor to 0,
  which means "restart at the tail" (`main/storage.c:1151-1153`, `1182-1183`).
  Writes and one reboot lead there (`RebootLosesTheEnd`).
- A tail ahead of the head is moved out of the way only while it is past the
  sector being entered (`main/storage.c:842`). After a boot in a later lap it
  lies right there, so the first sector step hides all but the newest entries,
  which are still on flash (`ShowsAllIff`, `RebootHidesTheRest`).
- The host decoder guesses whether a type byte is present. It recovers an
  entry, whatever follows, exactly when the entry is `Unambiguous`
  (`DecodesToItselfIff`); `log_write` also accepts others.
- When the safety input breaks, `sensors_check` switches every relay off past
  the interlock (`main/sensors.c:198-202`), which still takes JACK and AUX for
  on: one that is asked for the same direction is on again in the same tick,
  without any hold-off (`BackOnIff`; `BackOnFromBoot` is such a run).
- `JACK_TIME`, `JACK_MAX_TIME` and `JACK_PRE_TIME` (`main/control_fsm.c:247-251`)
  are unparenthesised products, so a cast in front of one truncates `JACK_KT`
  before multiplying. `JackTimeFloor`, `JackCap` and `JackPreTime` say so.
- An UNDO during the lift records no end of it, so a lift abandoned after more
  than `JACK_TIME` is lowered for less time than it was raised
  (`LoweredEnoughIff`, `UndoLowersTooLittle`).
- The jack position is tracked from the state, not from the relays, and the
  override is looked at twice per tick, so an upward jog can go uncounted
  (`UpIsCountedIff`; `UncountedFromBoot` is such a run).
- A client may set the remaining distance while a move is under way
  (`main/comms.c:205-212`), and the end of DRIVE still takes off the distance
  the move has planned (`main/control_fsm.c:650`): set below that, it goes
  negative (`SetRemainingIff`).
- An alarm fires one second after the slot's second (`main/rtc.c:379`) and the
  next one is looked for from the time of that call. Waking from soft idle waits
  up to 5 s for the radios before it (`main/main.c:386-395`), the awake loop not
  at all (`main/main.c:531-534`). With a wait of w seconds, of two slots 1 to
  w + 1 seconds apart the later one can be skipped (`StartedIff`,
  `EveryMoveStartedIff`).

Nothing in the repository sends `FSM_CMD_SHUTDOWN` or
`FSM_CMD_START_IGNORE_OVERTRAVEL` (`main/control_fsm.h:12` and the case labels
are their only uses); both are modelled because the control task handles them.
An overtravel START that is dropped because a move is under way would still
replace that move's planned distance (`OvertravelIff`).

`dafny verify dfyconfig.toml` checks the whole project.

## Model

| member | source | states |
|---|---|---|
| Flash.ErasedIsNeutral | main/storage.c:822-839 | programming an erased byte stores exactly the byte asked for (AND with 0xFF) |
| Flash.ProgramFresh | main/storage.c:855-861 | a program operation may only touch erased bytes, and then leaves exactly the buffer there and everything else as it was |
| Flash.SpliceIsLocal | main/storage.c:792-793 | writing inside one sector changes no byte of any other sector |
| LogModel.LastByteTellsSealed | main/storage.c:734-739 | a sector's last byte differs from 0xFF exactly when the sector was padded |
| LogModel.FirstByteTellsErased | main/storage.c:726-732 | a sector's first byte is 0xFF exactly when the whole sector is erased |
| LogModel.AppendImage | main/storage.c:854-861 | programming the first k bytes of an entry leaves the sector of the possibly torn entry, still open, with its last byte erased |
| LogModel.SealImage | main/storage.c:800-815 | the padded bytes were erased, and padding turns the open sector into the sealed one |
| LogModel.TornBytes | main/storage.c:854-861 | a slot of which only k bytes were programmed reads as an entry of the same size, the intended one when k is all of it |
| LogModel.EntryOnFlash | main/storage.c:1161-1215 | entry i of a sector stands in the partition at the sum of the sizes before it, wholly inside its sector |
| LogStore.ZeroPad | main/storage.c:800-815 | the chunked loop programs zeros over exactly the gap, each byte erased just before |
| LogStore.EraseIfUsed | main/storage.c:822-839 | looking at one byte before erasing always leaves the sector empty, and no other sector changed |
| LogStore.SealHead | main/storage.c:800-815 | from the head to the end of its sector everything is erased, and zeroing it seals that sector |
| LogStore.AdvanceOffsets | main/storage.c:817-844 | the byte-offset arithmetic for head and tail, with both wraps, is the sector step of the abstract log |
| LogStore.EnterNextSector | main/storage.c:800-839 | padding, stepping (with wrap) and erasing leave the bytes of the advanced log |
| LogStore.ErasedAtHead | main/storage.c:793-861 | the room an entry is programmed into is inside the partition and erased |
| LogStore.ProgramAtHead | main/storage.c:851-871 | programming any prefix of an entry at the head leaves the bytes of the appended log, with the head just past the slot |
| LogStore.ProgramEntry | main/storage.c:849-861 | the three program operations (length, payload, type) write the encoded entry over erased bytes |
| LogStore.FindHeadSector | main/storage.c:933-947 | the loop computes the first bisection |
| LogStore.FindTailSector | main/storage.c:961-977 | the loop computes the second bisection, cyclically after the head |
| LogStore.WalkToHead | main/storage.c:990-1025 | the loop computes the walk over entries and padding |
| LogStore.LogStore.constructor | main/storage.c:907-930 | an erased partition holds the empty log with an empty history |
| LogStore.LogStore.AdvanceHead | main/storage.c:793-844 | padding and moving on keeps bytes, offsets and history in step and queues nothing; a tail past the new head comes to the sector behind it and shows all of flash, any other stays |
| LogStore.LogStore.AppendAtHead | main/storage.c:849-871 | programming the first k bytes of an entry appends the (torn) entry to the log and to what was written |
| LogStore.LogStore.WriteBlocking | main/storage.c:779-877 | the error cases change nothing; otherwise bytes, head, tail and history are those of the abstract write of this entry: behind the head when it ends before the sector does, with nothing lost, and else at the start of the next sector, of which alone the entries are lost, with the tail moved as there |
| LogStore.LogStore.WriteUntilPowerCut | main/storage.c:851-861 | power lost after k bytes of an entry leaves the well-formed flash of the cut log and nothing in memory |
| LogStore.LogStore.LogInit | main/storage.c:907-1073 | the boot scan takes head and tail from the bytes alone, and re-establishes the whole invariant when the head is recoverable |
| LogStore.LogStore.LogWrite | main/storage.c:742-776 | the four error cases in order, changing nothing; otherwise the entry is accepted: accepted is always written followed by queued |
| LogStore.LogStore.WriterTurn | main/storage.c:880-904 | the oldest queued entry moves from queue to flash; nothing is lost, duplicated or reordered |
| LogStore.LogStore.LogReadReset | main/storage.c:1249-1253 | the next read gives what a read from the tail gives |
| LogStore.LogStore.LogRead | main/storage.c:1137-1237 | one read on the cells, with every outcome and cursor move of the code, the uninitialised case included |
| LogRecovery.FullMeansSealed | main/storage.c:734-739 | on a well-formed partition the flags the bisections look at are "was padded" |
| LogRecovery.FirstNonFullMonotone | main/storage.c:933-947 | on full sectors followed by non-full ones the bisection finds the boundary |
| LogRecovery.FirstNonFullOneHole | main/storage.c:933-947 | with one non-full sector among full ones it finds that sector exactly when its distance to the end is a halving of the range, and the last sector otherwise |
| LogRecovery.FirstFullAfterMonotone | main/storage.c:961-977 | the second bisection finds the first full sector after the head, or none |
| LogRecovery.WalkSector | main/storage.c:1001-1021 | the walk steps over every entry of a sector to its padding or its first erased byte |
| LogRecovery.RecoveredHeadIs | main/storage.c:924-1025 | for every reachable log, the recovered head: exact, or the partition's end when the bisection misses |
| LogRecovery.HeadExactIff | main/storage.c:924-1025 | the head comes back exactly if and only if the log is in its first lap or the head sector's distance to the end is a halving of the sector count |
| LogRecovery.RecoveryIs | main/storage.c:924-1031 | bisections and walk recompute the head; the tail becomes 0 in the first lap and the sector after the head later |
| LogHistory.AdvanceHistory | main/storage.c:817-844 | erasing the oldest sector keeps what is on flash a suffix of everything written |
| LogHistory.TailAfterAdvance | main/storage.c:841-844 | entering a sector moves a tail that lies past it to just behind it, and then everything on flash is visible; any other tail stays |
| LogHistory.ShowsAllIff | main/storage.c:841-844 | after such a step everything on flash is visible if and only if the tail lay past the sector entered or nothing else is on flash |
| LogHistory.WritePlaces | main/storage.c:793-871 | what a write does to head, tail, visible and retained entries, by whether it ends before its sector does; moving on loses exactly what the sector entered held |
| LogHistory.VisibleIsSuffix | main/storage.c:841-844 | what lies between tail and head is the most recent part of what is on flash; with the tail at 0, exactly the current lap |
| LogHistory.RebootedShowsAll | main/storage.c:961-977 | after a reboot everything still on flash is visible |
| LogReader.ReadEntry | main/storage.c:1150-1236 | a read that starts on an entry returns it and stops behind it |
| LogReader.ReadPadding | main/storage.c:1176-1190 | a read that starts on padding goes on from the next sector, or from cursor 0 after the last |
| LogReader.ReadsWhatStands | main/storage.c:1150-1236 | on arbitrary flash contents a read returns only an entry that stands there byte for byte, and leaves the cursor at its end, or at 0 when that is the partition's |
| LogReader.ReadStep | main/storage.c:1137-1237 | one read, from any position, delivers the next visible entry or NOT_FOUND at the head, skipping any padding |
| LogReader.ReadBack | main/storage.c:1137-1253 | read j after a reset returns visible entry j, and NOT_FOUND once all are read |
| LogReader.ReadingEndsIff | main/storage.c:1150-1190 | reading from a reset ever reports NOT_FOUND if and only if the tail is not ahead of the head |
| LogParser.ParseEntries | logtool/parser.py:227-350 | the decoder loop computes the recursive decoder |
| LogParser.DecodesToItselfIff | logtool/parser.py:267-310 | an entry's type and payload are recovered, whatever bytes follow it, if and only if its kind is valid and not its own length byte, or is 250 or more and its first payload byte is no valid type |
| LogParser.TornIsAligned | logtool/parser.py:267-310 | an entry torn before its type byte takes up exactly its own slot in the decoder's eyes |
| LogParser.EmittedIsUnambiguous | logtool/parser.py:267-284 | every entry the firmware emits meets that condition and comes back with its type, its payload and the shape of its type |
| LogParser.RecordShape | logtool/parser.py:304-345 | for any bytes: a record is unknown exactly for types that are none of the firmware's, a parse error exactly for a payload shorter than its type needs, and otherwise of its type's shape |
| LogParser.RecordIs | logtool/parser.py:290-302 | an aligned entry decodes to its own type and payload, or, when its type is unknown and its first payload byte is a known one, to that and the rest |
| LogParser.ParseEntry | logtool/parser.py:260-310 | an aligned entry decodes to its one record wherever it stands and whatever follows |
| LogParser.ParseSealedSector | logtool/parser.py:244-252 | a padded sector decodes to its entries, then decoding resumes at the next sector |
| LogParser.ParseStream | logtool/parser.py:244-310 | a sector-aligned stream of aligned entries decodes to one record for each, in order |
| LogStream.StreamPartitionRange | main/webserver.c:104-126 | the chunked copy through the shared buffer sends exactly the bytes of the range |
| LogStream.LogHandler | main/webserver.c:275-295 | an out-of-range client tail falls back to the log's; the body is the bytes from tail round to head and the announced size is their number |
| LogStream.StreamIsAligned | main/webserver.c:382-394 | a full download is the images of the visible padded sectors followed by the entries of the open one |
| LogStream.RoundTrip | logtool/parser.py:227-350 | host decoding undoes firmware encoding: a full download gives exactly one record for each visible entry, in order, with the entry's type and payload where it is unambiguous, and the right shape where the firmware emits it |
| LogRuns.ApplyHistory | main/storage.c:779-877 | each write, power cut and reboot (where the scan can find the head) keeps the log consistent with everything written so far |
| LogRuns.VisibleOfRun | main/storage.c:841-844 | after any run of writes, power cuts and reboots where the scan can find the head, the visible log is a suffix of what was written, and all of it in the first lap |
| LogRuns.LapOfRun | main/storage.c:817-820 | after any run, the sectors up to the head hold exactly what was written since the head last wrapped |
| LogRuns.ReadsSinceWrap | main/storage.c:1137-1253 | after any number of writes and wraps, reads from a reset return the entries since the last wrap, then NOT_FOUND |
| LogRuns.Replay | main/storage.c:779-1073 | carrying out a run on the cells keeps the invariant and ends in the log and history the run describes |
| LogTheorems.RecoveryExactIff | main/storage.c:924-1031 | with the tail at 0, head and tail both come back exactly if and only if the head has not wrapped or is back in the last sector |
| LogTheorems.PowerCutRecovery | main/storage.c:1001-1031 | power cut inside an entry in the first lap: the head comes back on an erased byte just past the torn slot, the tail at 0, and the log reads as before plus the torn entry |
| LogTheorems.CutDownload | logtool/parser.py:227-350 | after that cut and a boot, a download decodes to one record for every earlier entry, with its type and payload as before, and one for the torn slot, whose type byte reads as erased |
| LogTheorems.DownloadDecodes | logtool/parser.py:227-350 | for every run writing only what the firmware emits, with wraps, torn entries, and boots wherever the scan can find the head (always in the first lap; `HeadExactIff` says where later), a download decodes to one record for each entry of a suffix of what was written, and every whole entry to its type, its payload and its type's shape |
| LogTheorems.GuessCanFail | logtool/parser.py:276-289 | an entry log_write accepts that fails the condition, and the decoder with it |
| LogFailures.WritesLoseTheHead | main/storage.c:933-959 | on every partition of three or more sectors a run of firmware writes alone ends where the boot scan puts the head at the partition's end |
| LogFailures.RebootLosesTheEnd | main/storage.c:1150-1190 | on every partition of two or more sectors writes and one reboot end with the tail ahead of the head, where reading never reports the end |
| LogFailures.RebootHidesTheRest | main/storage.c:841-844 | on every partition of two or more sectors a run of firmware writes with one reboot ends with one entry visible and more of them still on flash |
| LogFailures.PaddingCutIff | main/storage.c:803-815 | power lost after z padding bytes: once something was written in the next sector, boots recover the head behind it if and only if z was all of the padding; begun and unfinished, the head is on top of it and the next write meets programmed bytes |
| LogFailures.PaddingCutHidesEntries | main/storage.c:803-815 | after such a cut the next boot, and the boot after an entry was written, both put the head at the following sector's start |
| Interlock.RelayDriver.Transition | main/power_mgmt.c:113-135 | the four transition rules of one bridge, touching no other bridge's times |
| Interlock.RelayDriver.Idle | main/i2c.c:78-85 | every relay off at once; the interlock's memory stays |
| Interlock.RelayDriver.DriveRelays | main/power_mgmt.c:137-169 | the whole bank steps, with the safety cut of DRIVE after the interlock, and is written to the relays |
| Interlock.NoDirectReversal | main/power_mgmt.c:113-135 | every output is the request or OFF, and two consecutive outputs that are both on are equal |
| Interlock.HoldOff | main/power_mgmt.c:118-130 | a bridge the interlock turns off stays off at every tick up to the hold later, whatever is asked |
| Interlock.OnIsLateAlways | main/power_mgmt.c:122-124 | in every run a bridge that is on went on more than the hold after its last recorded turn-off |
| Interlock.HoldOffIff | main/power_mgmt.c:162-165 | a turn-off is followed by the full hold if and only if the interlock made it, not the safety cut alone |
| Interlock.Granted | main/power_mgmt.c:122-124 | a request that is kept up is granted at the first tick past the hold |
| FsmTask.ControlTask.FsmRequest | main/control_fsm.c:208-217 | a command is queued unless the queue is full |
| FsmTask.ControlTask.ArmOverride | main/control_fsm.c:98-108 | only in IDLE: command and deadline, counted from the latest tick's clock |
| FsmTask.ControlTask.BeginMove | main/control_fsm.c:367-384 | nothing outside IDLE, the first failing gate's error, or the start of a move |
| FsmTask.ControlTask.CalibrateTransition | main/control_fsm.c:199-206 | the gated calibration step, exactly when state and battery allow |
| FsmTask.ControlTask.SensorsCheck | main/sensors.c:142-205 | when the safety input breaks every relay is switched off before any command is looked at |
| FsmTask.ControlTask.Obey | main/control_fsm.c:350-450 | one command, all fields |
| FsmTask.ControlTask.DrainCommands | main/control_fsm.c:346-451 | the queue is emptied in order |
| FsmTask.ControlTask.JackDownDuration | main/control_fsm.c:259-264 | the measured lift, at least JACK_TIME, plus 5% |
| FsmTask.ControlTask.TransitionState | main/control_fsm.c:458-730 | one transition of the 16-state machine, all fields (MoveStep, FaultStep and CalibrationStep say what that is) |
| FsmTask.ControlTask.SetOutputs | main/control_fsm.c:733-941 | the relays step on the request of the state, the override and the fuses (RelaysMean says what that is) |
| FsmTask.ControlTask.TrackJack | main/control_fsm.c:947-987 | the position estimate after the tick |
| FsmTask.ControlTask.RunTick | main/control_fsm.c:326-987 | the imperative tick, sensor check included, computes the tick function on every field of the task, the interlock and the relay word |
| FsmLoop.ControlLoop | main/control_fsm.c:326-994 | the loop, until a shutdown, ends in the world after all the ticks |
| FsmLoop.BootStarts | main/control_fsm.c:317-322 | at boot every run invariant holds; those of position and distance exactly when the values kept over the reset are in range |
| FsmLoop.BackOnFromBoot | main/sensors.c:198-202 | a run of three ticks from boot: a jog lowers the jack, the safety input breaks, every relay is cut, and the jack is on again at the end of that tick |
| FsmLoop.UncountedFromBoot | main/control_fsm.c:961-974 | a run of two ticks from boot: a forced jog released between the two looks drives the jack up with no change of the position |
| FsmLoop.MovesAreStarted | main/control_fsm.c:177-191 | no move without an accepted START: a device that got into a move during a run drained a START in a tick with battery, safety and all three fuses good |
| FsmLoop.StaysAtRest | main/control_fsm.c:733-941 | at rest, every relay stays off through every run without START, calibration or jog, whatever stops, undos and shutdowns come |
| FsmLoop.NoRelayReverses | main/power_mgmt.c:137-169 | in every run of the device no relay reverses from the end of one tick to the next |
| FsmLoop.RelaysHoldOff | main/power_mgmt.c:137-169 | in every run JACK or AUX, off at a tick's end, is off at the end of every tick for twice the inrush time; DRIVE too when it was not a safety cut |
| FsmSafety.ExclusionAlways | main/control_fsm.c:733-941 | after every tick of every run, JACK energised means DRIVE and AUX off, on the relay word and in the interlock's memory |
| FsmSafety.UnsafeTick | main/control_fsm.c:458-730 | a tick with the safety input broken, whatever was queued, ends with DRIVE off; its state is a safe one unless it drained a shutdown, and then all relays are off if the input broke in that tick |
| FsmSafety.DriveCutAlways | main/sensors.c:198-202 | in every run, always: DRIVE is off while the safety input is held for broken |
| FsmSafety.UnsafeTicksCut | main/power_mgmt.c:162-163 | every unsafe tick of every run ends with DRIVE off |
| FsmSafety.BackOnIff | main/sensors.c:198-202 | a relay cut when the safety input breaks is on again at the end of that tick if and only if it is JACK or AUX and lowering, jack calibration, UNDO's fluffer or a jog asks for the direction it had |
| FsmSafety.DeviceRunsInterlock | main/power_mgmt.c:137-169 | each bridge of the device is an interlock run on the device's own requests |
| FsmSafety.Deadman | main/control_fsm.c:98-108 | once nothing was armed for the last pulse's length, an idle device requests nothing |
| FsmTermination.RankFalls | main/control_fsm.c:458-730 | the command-free transition graph is acyclic |
| FsmTermination.TimedStatesLeave | main/control_fsm.c:88-94 | a state is kept only while its timer, left untouched, runs, or in UNDO while the jack fuse is tripped |
| FsmTermination.ComesToIdle | main/control_fsm.c:458-730 | by the lexicographic measure (rank, patience) a move reaches IDLE |
| FsmTermination.ReachesIdleIff | main/control_fsm.c:458-730 | without commands the device reaches IDLE if and only if it is not in a calibration delay and never hangs in UNDO under a fuse that stays tripped |
| FsmMove.RelaysMean | main/control_fsm.c:733-941 | at a tick's end each relay is on, and which way, if and only if a state or a live jog that wants it is there, the interlock lets it and, for DRIVE, the device is safe |
| FsmMove.RelaysOfRun | main/control_fsm.c:886-901 | in every run: outside IDLE DRIVE only goes forward, and only in DRIVE and its calibration; backward only under a live reverse jog; in DRIVE and JACK_DOWN the motors are on as soon as the interlock lets them |
| FsmMove.PositionFollows | main/control_fsm.c:947-987 | when the override is not changed within the tick, the position goes a tick up or down with what is wanted of the jack, not below 0, and is 0 at home |
| FsmMove.MoveStep | main/control_fsm.c:458-697 | a state of a sound move is left exactly when its timer or its own event ends it, for the next state in the documented order, whose timer then runs for that state's time |
| FsmMove.DriveIsMeasured | main/control_fsm.c:611-619 | the drive begins at minus the planned distance in encoder counts |
| FsmMove.DriveEndsIff | main/control_fsm.c:622-656 | it ends at the first tick by which more edges were counted than that, or at its timer |
| FsmMove.DriveTripDeducts | main/control_fsm.c:629-646 | when its fuse trips, the edges counted since it began come off the remaining distance, but no more than is left |
| FsmMove.FaultStep | main/control_fsm.c:458-708 | what a broken safety input or a tripped fuse makes of every state, with the fault's error |
| FsmMove.CalibrationStep | main/control_fsm.c:710-729 | what ends a calibration |
| FsmMove.PassesThrough | main/control_fsm.c:576-697 | a sound move leaves out no state from DRIVE_START_DELAY on |
| FsmMove.WholeMove | main/control_fsm.c:458-697 | every move that nothing interferes with, from any of its states, ends in IDLE by way of DRIVE and JACK_DOWN, and takes exactly its planned distance off |
| FsmMove.RestsOnlyLowered | main/control_fsm.c:526-708 | in every run without STOP, whatever breaks, trips or is asked for, a device with its jack raised comes to rest only by way of JACK_DOWN |
| FsmMove.StopEnds | main/control_fsm.c:386-388 | STOP ends the tick in IDLE from any state, with every relay off but a live jog's |
| FsmMove.UndoLowers | main/control_fsm.c:389-395 | UNDO anywhere but in IDLE ends the tick lowering the jack, or waiting for its fuse |
| FsmMove.StartIff | main/control_fsm.c:351-384 | START in IDLE begins the move exactly when distance is left and the gates are open, with the configured distance or what is left; otherwise the first reason is the error |
| FsmMove.CalibrationIff | main/control_fsm.c:400-448 | which commands change a calibration's state, exactly when, and for how long |
| FsmInputs.NeverHangs | main/control_fsm.c:701-708 | in UNDO the jack is off, so its fuse cools and clears: no run without commands stays in UNDO for ever |
| FsmInputs.RestsIff | main/control_fsm.c:458-730 | with the jack's fuse joined in, the device reaches IDLE without commands if and only if it is not in a calibration delay |
| FsmInputs.BrokenInputCutsDrive | main/sensors.c:187-202 | once the raw safety input has been broken for SAFETY_BREAK_US, every tick ends with DRIVE off until it is made again, whatever is queued |
| FsmJack.SwitchesAgree | main/control_fsm.c:947-987 | on one state, the tracking switch says "up" exactly when the output switch does; "down" agrees except at home |
| FsmJack.UpIsCounted | main/control_fsm.c:947-987 | a tick whose relays drive the jack up adds a tick to the position, when the override is not changed within it |
| FsmJack.UpIsCountedIff | main/control_fsm.c:961-974 | in general it is counted if and only if, outside a move, the override is still a live upward jog at the second look |
| FsmJack.UpCanGoUncounted | main/control_fsm.c:961-974 | every tick of a forced jog released between the two looks moves the jack uncounted |
| FsmJack.HeightCap | main/control_fsm.c:526-573 | in every run without forced jogs and jack calibration the position stays between 0 and the cap plus one tick, and at most the cap in RETRACT and SETTLE |
| FsmJack.LiftKnownRun | main/control_fsm.c:378-380 | over every run the machine's timestamps are those of the lift as it really went |
| FsmJack.JackDownLength | main/control_fsm.c:259-265 | whenever JACK_DOWN is entered, its timer is 105% of the measured lift and at least 105% of JACK_TIME |
| FsmJack.JackDownOfRun | main/control_fsm.c:659-708 | the same over every run from boot: the timer is what the run's own latest lift calls for |
| FsmJack.LoweredEnoughIff | main/control_fsm.c:389-394 | in every run from boot, a jack-down lasts at least 105% of the time the jack was driven up if and only if the lift was not abandoned by an UNDO after more than JACK_TIME |
| FsmJack.UndoLowersTooLittle | main/control_fsm.c:389-394 | such runs of 20 ms ticks exist from boot whenever the first lift phase is longer than JACK_TIME |
| FsmDistance.TransitionDeducts | main/control_fsm.c:622-656 | a transition deducts the planned or the measured distance, on leaving DRIVE only, never more than is left |
| FsmDistance.Completes | main/control_fsm.c:622-656 | every move under way can run to the end of DRIVE and deduct its planned distance |
| FsmDistance.DistanceAccounting | main/control_fsm.c:351-367 | conservation over every run in which clients set no negative distance, and none below the plan of a move under way (and overtravel starts come while a whole move is left): the remaining distance is what it was, plus what clients added, minus the deductions; it stays non-negative, and there is at most one deduction for each visit to DRIVE |
| FsmDistance.NothingCredited | main/comms.c:205-212 | where no client sets the distance, nothing is added to it: it only falls |
| FsmDistance.SetRemainingIff | main/control_fsm.c:56 | a client that sets the distance to x while a move is under way lets some run take it below zero if and only if x is less than the move has planned |
| FsmDistance.OvertravelIff | main/control_fsm.c:359-367 | about a command that nothing sends: after an overtravel START, accepted or dropped, some run takes the remaining distance below zero if and only if the configured move is longer than what was left when it was given |
| Efuse.Channel.Process | main/power_mgmt.c:593-641 | one sample: the instant path, heating, cooling, thermal trip and reset |
| Efuse.ExtremeTrips | main/power_mgmt.c:596-609 | in every run, a sample at KINST times rated current or more, past the inrush and with no other bridge in its own, trips the fuse in that sample and adds no heat |
| Efuse.TripsIff | main/power_mgmt.c:596-633 | in every run a fuse becomes tripped at such a sample, or at one that leaves it hotter than its threshold, and at no other; the trip time is that sample's |
| Efuse.ClearsIff | main/power_mgmt.c:637-641 | in every run a trip ends exactly at a sample that is neither, more than TCOOL after it |
| Efuse.ThermalBound | main/power_mgmt.c:615-625 | below rated current heat stays between 0 and 1/TAUCOOL |
| Efuse.RatedNeverTrips | main/power_mgmt.c:615-633 | any fuse that is not tripped, cold or warm, never trips thermally below m times rated current when its threshold is at least its heat and m*m*(1/TAUCOOL - UPDATE_S) |
| Efuse.NoNuisanceTripIff | main/power_mgmt.c:601-633 | over samples 20 ms apart, past the inrush, a cold fuse never trips thermally below rated current if and only if its threshold is at least m*m*(1/TAUCOOL - UPDATE_S), m being the smaller of 1 and KINST; with KINST at least 1 the same holds whatever inrush windows are open |
| Efuse.OverloadTrips | main/power_mgmt.c:601-633 | at k >= 1 times rated current the fuse trips within floor(HEAT_THRESH / (k*k*UPDATE_S)) + 1 samples |
| Efuse.TripHolds | main/power_mgmt.c:637-641 | once tripped at t it is tripped at every sample up to t + TCOOL |
| Efuse.TripEnds | main/power_mgmt.c:618-641 | below m times rated current, where that settles under the threshold, any fuse is clear from a computed number of samples on |
| Efuse.DominantActiveBridge | main/power_mgmt.c:427-441 | the active bridge with the highest nominal current, the first among equals, none exactly when none is active |
| Debounce.SafetyInput.constructor | main/sensors.c:129-137 | boot: safe, timing the level seen |
| Debounce.SafetyInput.SensorsCheck | main/sensors.c:176-205 | one check of the debouncer; it cuts the relays exactly when the verdict turns unsafe |
| Debounce.DebouncesByHistory | main/sensors.c:176-205 | the verdict is that of the history definition, and exactly one start time is non-zero: the first check of the uninterrupted level |
| Debounce.ChangesExactlyWhenLasted | main/sensors.c:187-198 | the verdict changes only after the level lasted its limit uninterrupted, and then it does |
| Schedule.SortSlots | main/storage.c:408-428 | the in-place insertion sort computes the recursive one |
| Schedule.SortRanks | main/storage.c:400-428 | the result is ordered by rank and a permutation |
| Schedule.SortCanonicalIff | main/storage.c:408-428 | about the sort alone, on any 32-bit slots: enabled slots ascend and disabled ones are last if and only if no disabled slot stood before one holding INT32_MAX |
| Schedule.ScheduleNextAlarm | main/rtc.c:321-366 | the least time after now at which an enabled slot fires; -1 exactly when none is enabled or the clock is not set |
| Schedule.SortKeepsAlarm | main/rtc.c:329-333 | sorting the slots does not change which time is next |
| Schedule.SortKeepsNextAlarm | main/rtc.c:329-333 | the scheduler's result is the same before and after sorting the slots |
| Schedule.AlarmClock.Tripped | main/rtc.c:372-380 | past alarms report, a missing one is scheduled instead |
| Schedule.AlarmClock.Poll | main/main.c:386-395 | one poll of the main loop, on either path: fire at one clock reading, reschedule at a later one |
| Schedule.FiredIncrease | main/main.c:386-395 | over any run of polls with a non-decreasing clock the alarms that fire strictly increase, each later than the rescheduling of every one before |
| Schedule.NoneMissed | main/main.c:386-395 | polled at most a second after the last poll was done, a scheduled move is started, or came up before the poll that started an earlier one had rescheduled |
| Schedule.StartedIff | main/main.c:386-395 | the two exclude each other; without a wait a scheduled move is started if and only if the one due a second before was not |
| Schedule.EveryMoveStartedIff | main/main.c:386-395 | for every wait: all runs whose firing polls take up to that long start every scheduled move if and only if no two enabled slots are 1 to wait + 1 seconds apart round the day |
| Schedule.SkippingRun | main/main.c:386-395 | two such slots have a run that skips a move |
| ParamStore.ValidateBounds | main/storage.c:123-174 | a validated value is finite, within its bounds, and unchanged by validating again |
| ParamStore.ValidateClamps | main/storage.c:123-174 | not finite gives the default, below the minimum the minimum, above the maximum the maximum, anything else itself |
| ParamStore.LoadRecordIff | main/storage.c:366-379 | a committed value loads back exactly; a string if and only if it is terminated |
| ParamStore.LoadsOnlyIntact | main/storage.c:686-706 | for arbitrary flash contents: a record whose last four bytes are not the checksum of its value leaves the default; otherwise an acceptable value is loaded exactly, a string cut off at its last byte, and any other number is corrected |
| ParamStore.LoadedInBounds | main/storage.c:672-709 | for arbitrary flash contents every bounded numeric parameter loads within its bounds |
| ParamStore.Store.constructor | main/storage.c:55-57 | the table starts as the defaults |
| ParamStore.Store.ValidateParam | main/storage.c:118-174 | clamp or reset one table entry, no other; true exactly when it was modified |
| ParamStore.Store.SetParamValue | main/storage.c:229-241 | a stored value is validated at once; an unknown parameter changes nothing |
| ParamStore.Store.SetParamString | main/storage.c:243-264 | a string parameter holds the first 15 characters, terminated; any other parameter is refused |
| ParamStore.Store.SetFromClient | main/comms.c:23-42 | strings go to string parameters and numbers to the others; a mismatch changes nothing |
| ParamStore.Store.FactoryReset | main/storage.c:489-516 | defaults in the table and on flash |
| ParamStore.Store.Perform | main/storage.c:229-709 | every change of the table is one step of the abstract run |
| ParamStore.Store.SortMoveSchedule | main/storage.c:408-428 | the slots of the table are sorted in place, the rest untouched |
| ParamStore.Store.CommitParams | main/storage.c:433-484 | table sorted and validated, and the partition holds exactly one checked record per parameter, each programmed over erased bytes |
| ParamStore.Store.LoadParam | main/storage.c:691-706 | one record, checked, unpacked and validated or replaced by the default (LoadsOnlyIntact says when, and to what) |
| ParamStore.Store.StorageInit | main/storage.c:672-709 | the load loop, entry by entry, each by its own record |
| ParamStore.CommitThenLoad | main/storage.c:433-484 | whatever the table held before, loading gives back exactly what was committed; strings if and only if terminated |
| ParamStore.LoadedSlotsInDay | main/storage.c:696-700 | whatever is on flash, the loaded slots are within a day |
| ParamRuns.CommitSorts | main/storage.c:433-464 | committing a table the store holds only sorts its slots; validation then changes nothing |
| ParamRuns.CommittedSchedule | main/storage.c:400-442 | after every such commit the slots are those from before, enabled ones ascending and disabled ones last |
| ParamRuns.TableAlwaysOk | main/storage.c:229-264 | in every run of sets, commits, resets and power cycles, at every moment: bounded values in bounds, floats finite, strings terminated, slots within a day |
| ParamRuns.EveryCommitIsCanonical | main/storage.c:439-442 | in every run every commit and every factory reset leaves the schedule canonical |
| ParamRuns.RestartReadsBack | main/storage.c:672-709 | in every run a power cycle brings back exactly what the latest commit or reset left, every parameter, strings included |
| ParamList.ParamListOk | main/storage.h:77-161 | every line of the parameter list has finite, ordered bounds that hold its default, string defaults are terminated, and the slots are contiguous |

## Left out

- PaddingCutIff: for a head in the first lap and not in the last sector, and for boots while the head is in the following sector; cuts elsewhere, or between padding and erasing, are not characterised.
- HeadExactIff: recovery after a wrap is characterised, not promised; what later writes do from a misplaced head (an offset equal to the partition size) is not modelled.
- RoundTrip: sector-aligned downloads only; the decoder aligns sectors to the start of its input, so an incremental download from inside a sector is not covered.
- LogRead: null arguments are not modelled; `hops` bounds the recursion over padding; running out of it is the outcome RunAway and stands for a recursion that does not end.
- NoNuisanceTripIff: over the reals, from a cold fuse; single-precision rounding is not modelled. With KINST below 1 and inrush windows open the exact condition is not characterised (RatedNeverTrips gives a sufficient one).
- RestsIff: the current of the jack while it is off, which is what the auto-zero leaves over, is assumed below some m times the rated one that the fuse settles under; with TAUCOOL 0 or HEAT_THRESH 0 there is no such m, and a hot fuse need not clear.
- DriveIsMeasured: for planned distances of fewer than 32768 counts, which the 16-bit encoder can hold.
- EveryMoveStartedIff: the slots stay as they are during a run of polls, the clock is not set, and bring-up mode, which stops the polls, is not entered.
- ReadBack: no write comes between the reads; a cursor kept across writes that overwrite its sector is not characterised.
- OvertravelIff: the start comes alone in its tick, with the gates of a START open; what a tick that also aborts the move does is not characterised.
- RunTick: parameters do not change during a run, bring-up mode and soft idle are not modelled, and encoder edges arrive as a count per tick, without the edge debounce of `sensors_check`.
- BootStarts: `last_relay_state` and the bridge times are taken to start at OFF and 0, as zero-initialised globals.
- SetFromClient: the parsing of the client's number is not modelled, and the raw setter is only called for numeric parameters, as its callers do.
- LoadedInBounds: NaN apart, float order is the order of sign and magnitude; the stored +0 and -0 compare equal, as the code compares them.
- ScheduleNextAlarm: the clock is a non-negative count of seconds; time zones and setting the clock are not modelled.
- Flash, ADC and I2C errors, and the branches that handle them: operations are taken to succeed.
- FreeRTOS beyond the FIFO queues and the mutexes: each locked region is one method call.
- Integer widths where nothing overflows in range: offsets below 2^31, microsecond clocks of 64 bits. The 16-bit encoder, the byte-sized lengths and the 32-bit slots are explicit; the out-of-range float-to-int16 conversion, undefined in C, wraps.
- The overcurrent test that ends the pre-jack phase (`get_bridge_overcurrent`), the current-sensor conversion, filtering and auto-zero: the normalised current, the fuses and the overcurrent flag are inputs.
- `send_fsm_log` and the calibration readings `fsm_cal_t` and `fsm_cal_e`.
- parser.py's type-first layout, format detection by file, and value formatting: payloads are byte strings, classified by type and length.
- WiFi, HTTP, WebSocket, DNS, BLE, RF, UART, JSON commands, LEDs and buttons, bring-up tool, OTA, release scripts, web pages, solar charging, progress bar and name tables.
