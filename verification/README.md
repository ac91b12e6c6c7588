# Verified model of the CiA 402 EtherCAT servo driver's motion core

This project models the real-time core of the driver in Dafny and proves what it keeps over whole runs:
the controller's lifecycle on arbitrary statuswords and command batches, the move protocol between API
threads and the real-time loop, the process-data seqlock, the set-point handshake, cyclic streaming and
its stop ramp, the Runner, the bring-up gate and working-counter latch, the distributed-clock lock, and
the compilation of PDO maps into SDO writes and byte locations.

The bus is replaced by arbitrary inputs: working counters, statuswords, actual positions, mode echoes and
DC times are parameters. Objects the source updates in place are classes whose methods are proved equal to
a specification function on the object's value; the theorems are about runs of those functions. Code that
several threads share is a transition system with one atomic access per step.

| file | component |
|---|---|
| `Cia402.dfy` | statusword decoding, controlwords, the enable ladder |
| `Commands.dfy` | the command queue and its coalescing drain |
| `Sequencer.dfy`, `ModeCheck.dfy` | the profile-mode sequencer: ladder, mode check, new-set-point handshake; what it latches over a run |
| `Trapezoid.dfy`, `MotionMode.dfy` | the set-point generator; the profile and cyclic motion modes |
| `Published.dfy`, `Controller.dfy` | published atomics; the cycle as a function |
| `SelectedModes.dfy`, `ServoControllers.dfy` | the mode a controller holds; the controller as an object |
| `OpLog.dfy`, `CycleSteps.dfy` | what the cycle publishes; what it does with the mode of a live move |
| `ProfileMoves.dfy`, `Completion.dfy`, `CyclicMoves.dfy` | when a move is published completed, in profile and cyclic mode, per cycle and over runs |
| `RestWindow.dfy`, `Energizing.dfy`, `Streaming.dfy` | "at rest" from the actuals alone; when a word energizes and where a cycle ends; what is streamed |
| `FaultRecovery.dfy`, `HomingRun.dfy`, `NoLunge.dfy`, `StoppingWindow.dfy` | more theorems over runs of the controller |
| `MoveProtocol.dfy`, `LoopSchedule.dfy` | API threads, the loop and waiters interleaved; the controller as that loop |
| `Seqlock.dfy` | the process-data snapshot |
| `Runner.dfy`, `Master.dfy`, `DcLock.dfy`, `DcInBand.dfy` | the cyclic body, bring-up and health, pacing, the phase lock near its target |
| `PdoMapping.dfy`, `ProcessImage.dfy`, `PdoBuffer.dfy`, `SdoCodec.dfy` | PDO maps, fields, little-endian access, SDO text and integers |
| `Arith.dfy` | division facts |

Verify with `dafny verify dfyconfig.toml`.

## What turned out not to hold

- A move can be published completed although it never ran. For every cycle of every lifecycle state,
  `ProfileMoves.LiveMoveCompletesExactly` and `CyclicMoves.LiveMoveCompletesExactly` say exactly when a live
  move is completed in it, from the routed state and the inputs; over whole runs from the adoption,
  `Completion.CompletedOrNeverSent` and `CyclicMoves.CompletedHow` say what a completion then means.
  - In profile mode it comes after the move's whole handshake, or with its set-point never handed over since
    the adoption or since the mode was last reset: adopted while the drive is not yet Operational, say, and
    completed by the first later cycle whose statusword still shows target-reached. Handed over when
    adopted, and Operational since, completion is real: `Completion.CompletionIsReal`.
  - In cyclic mode it comes at the move's own target, or stranded: holding at the actual where a cycle outside
    Operational last reseeded the generator (adopted while enabling, say, and completed by the first later
    cycle that finds the drive enabled and the shaft at rest there); or the generator refused the move (its
    speed is 0 counts/s) and an older course ended, or the shutdown braked it. Operational throughout and
    accepted, completion is real: `CyclicMoves.CyclicCompletionIsReal`.
- A move call that returns normally need not have completed. Its wait returns exactly when its number is
  at most the completed one or below the active one (`MoveProtocol.ReturnsExactly`); that means its own
  completion when no higher generation was adopted (`MoveProtocol.NormalReturnMeaning`). Three ways it
  goes wrong are reached: overtaken between drawing its generation and claiming the slot
  (`MoveProtocol.OvertakingIsReachable`), failed and then superseded before it looks again
  (`MoveProtocol.FailedThenSupersededIsReachable`), and completed but no longer visible, because a lower
  generation completed later (`MoveProtocol.MissedCompletionIsReachable`).
- Bit 4 can rise one or two words after Halt, exactly when one of the two steps before operated with Halt
  commanded (`Sequencer.RaisedIsSettledExactly`). Then a wait for the acknowledge was interrupted, by a step
  out of operation or by one that streamed a velocity (`Sequencer.RiseIsSettledOrResumed`); both happen. The
  motion mode returns from velocity without a new set-point only by its mode-echo fallback
  (`MotionMode.VelocityEndsByFallback`).
- The mode-echo gate does not hold a drive in its quick-stop reaction: Enabling sends it enable-operation whether
  the mode is echoed or not (`Energizing.QuickStopPassesGate`), and the hand-back out of Resetting ships its
  first word without asking for the echo. For every cycle of every state `Energizing.EnergizesExactly` says
  when the word energizes a standard drive; a drive that is switched on or enabled is held:
  `Energizing.UnechoedStaysOff`.
- A disable command is lost in Init, in Enabling and in a cycle that finds a fault; an enable command in the same
  cycle overrides it in Disabled (`Energizing.CycleEndsIn`). Heeded, it lasts: `Energizing.DisabledStaysOff`.
- From a zero accumulator the phase error does not always shrink on its own side down to 100 ns: on a slow loop the
  accumulator outgrows the error and throws one of 100 ns across. At a configured rate every run closes in
  exactly when the rate is 7 Hz or more: `DcInBand.ClosesInExactlyFrom7Hz`.
- A confirm count of 0 ships bit 7 outside Resetting: `FaultRecovery.ZeroConfirmLeaksResetBit`.
- A field can lie outside `byte_size()`. Every location fits exactly when the assigned PDOs, up to the end
  of their last named entry, hold no more bits than the map's entry lists: `ProcessImage.LocationsFitExactly`.
  Without a repeated PDO they do; with one they need not.
- A map that lists the assignment object itself, with entries, is rejected by a drive that guards its
  mapping objects as soon as anything is written after it: `PdoMapping.ApplyPdoMap`. Distinct PDO indices
  are not needed: `PdoMapping.NeverRejected`.

## Model

| member | source | states |
|---|---|---|
| `Cia402.EnabledStateShowsBit` | src/ethercat/cia402.cpp:66-94 | every 16-bit word read as OperationEnabled has the enabled bit and no fault bit; a fault bit always reads as Fault or its reaction |
| `Cia402.EncodedBits` | src/ethercat/cia402.hpp:109-149 | the written word carries exactly the command bits and bits 4, 7 and 8 |
| `Cia402.Ladder` | src/ethercat/cia402.cpp:99-152 | bit 7 is set exactly in Fault; never Halt or bit 4 |
| `Cia402.LadderReachesOperationEnabled` | src/ethercat/cia402.cpp:99-152 | composed with the device state machine of CiA DSP 402 section 10, the ladder reaches OperationEnabled within six steps from any state and stays |
| `Commands.AbsorbCoalesces` | src/ethercat/pdo_cache.cpp:136-162 | one popped command turns the report of a queue into the report of the longer queue |
| `Commands.CoalescesIsUnique` | src/ethercat/pdo_cache.cpp:132-165 | the declarative report (latest set-points, sticky flags, halt-is-last) determines the batch |
| `Commands.CommandQueue.Push` | src/ethercat/pdo_cache.cpp:121-124 | appends, or drops exactly when full |
| `Commands.CommandQueue.Drain` | src/ethercat/pdo_cache.cpp:132-165 | empties the queue and reports exactly what the whole FIFO content says |
| `Sequencer.Cia402Sequencer.Reset` | src/ethercat/cia402_sequencer.hpp:198-208 | leaves the fresh, halt-settled state |
| `Sequencer.Cia402Sequencer.Settle` | src/ethercat/cia402_sequencer.hpp:116-133 | halt settling and arming equal the specification |
| `Sequencer.Cia402Sequencer.DriveOperational` | src/ethercat/cia402_sequencer.hpp:211-285 | one handshake phase (or velocity streaming) equals the specification |
| `Sequencer.Cia402Sequencer.Advance` | src/ethercat/cia402_sequencer.hpp:112-189 | the whole step equals the specification function the run theorems are about |
| `Sequencer.StateIgnoresImage` | src/ethercat/cia402_sequencer.hpp:112-189 | what a step leaves in the image never feeds its next state, so runs need no image |
| `Sequencer.SettledThroughRun` | src/ethercat/cia402_sequencer.hpp:118-126 | over every run since reset the settle counter is exactly the number of Halt-free words behind it, capped at two |
| `Sequencer.BitFourRiseIsHaltSettled` | src/ethercat/cia402_sequencer.hpp:118-250 | over every run since reset, a rise of bit 4 after a handshake step follows two words with Halt clear |
| `Sequencer.RaisedIsSettledExactly` | src/ethercat/cia402_sequencer.hpp:118-126 | two Halt-free words before a step, exactly when neither of the two steps before it operated with Halt commanded |
| `Sequencer.RiseIsSettledOrResumed` | src/ethercat/cia402_sequencer.hpp:216-263 | over every run, gaps included, a rise is settled, or resumes a wait that a step out of operation or one streaming a velocity interrupted |
| `Sequencer.HaltIsCommanded` | src/ethercat/cia402_sequencer.hpp:176-187 | Halt is on the wire exactly after an operating step that commands it |
| `Sequencer.RiseAfterGapIsNotSettled` | src/ethercat/cia402_sequencer.hpp:180-189 | a concrete run that resumes one word after Halt, out of a gap |
| `Sequencer.RiseAfterVelocityIsNotSettled` | src/ethercat/cia402_sequencer.hpp:216-225 | and one out of a velocity step, the drive enabled throughout |
| `MotionMode.VelocityEndsByFallback` | src/viam/lib/motion_mode.cpp:93-107 | the mode returns from velocity to position only by the reported fallback, or armed with a new set-point |
| `Streaming.CommandIsOnWire` | src/ethercat/cia402_sequencer.hpp:211-285 | an operating cycle of profile mode ships the commanded mode and Halt, and the velocity (0 until echoed) or the set-point with its speed |
| `Streaming.VelocityIsStreamed` | src/viam/lib/servo_controller.cpp:607-609 | a commanded velocity is what 0x60FF carries from that cycle until a command changes it |
| `Streaming.HaltAfterRouting` | src/viam/lib/servo_controller.cpp:582-609 | a new target or velocity releases Halt, whatever came with it; else the last halt sets it, and nothing else changes it |
| `Streaming.HaltOutlastsCycle` | src/viam/lib/motion_mode.cpp:83-112 | the mode's own cycle leaves it alone |
| `Streaming.FallbackStandsStill` | src/viam/lib/motion_mode.cpp:85-107 | a mode not followed for 200 cycles is reported and given up for the echoed one, at velocity 0 with no set-point armed |
| `Streaming.StopIsPassedOn` | src/viam/lib/servo_controller.cpp:685-694 | a stop the mode asks for is kept, and nothing else asks for one |
| `Streaming.StoppingTells` | src/viam/lib/servo_controller.cpp:896-919 | in the window the Runner is told whether the drive is off, and a ramping drive's velocity is zeroed |
| `Sequencer.BudgetFalls` | src/ethercat/cia402_sequencer.hpp:236-280 | each undisturbed handshake step uses up one of the steps left to Idle |
| `Sequencer.HandshakeTiming` | src/ethercat/cia402_sequencer.hpp:236-299 | from any state a set-point with no later halt or re-arm is Idle after 206 steps, with the timeout flag up on at most one |
| `ModeCheck.StopIsAskedOnce` | src/ethercat/cia402_sequencer.hpp:163-172 | over every run a stop is asked for exactly by the step that looks at the mode first and does not find it |
| `ModeCheck.NeverEnergizesInWrongMode` | src/ethercat/cia402_sequencer.hpp:163-189 | once that look failed no later word takes a standard drive to OperationEnabled |
| `ModeCheck.AnnouncedExactly` | src/ethercat/cia402_sequencer.hpp:180-182 | the drive counts as energized exactly when some step since the reset operated it |
| `ModeCheck.ResetIsEdge` | src/ethercat/cia402_sequencer.hpp:176-179 | bit 7 goes out exactly in Fault after a word with bit 7 low, so each is a rising edge |
| `Trapezoid.TrapezoidGenerator.ReseedTo` | src/viam/lib/trapezoid.hpp:32-37 | rest at the given count |
| `Trapezoid.TrapezoidGenerator.Retarget` | src/viam/lib/trapezoid.hpp:41-50 | accepts exactly valid limits, changes nothing otherwise |
| `Trapezoid.TrapezoidGenerator.RunAt` | src/viam/lib/trapezoid.hpp:54-67 | velocity run, or a hold when already at rest |
| `Trapezoid.TrapezoidGenerator.RampToRest` | src/viam/lib/trapezoid.hpp:70-74 | stop, with the last valid acceleration as fallback |
| `Trapezoid.TrapezoidGenerator.Advance` | src/viam/lib/trapezoid.hpp:77-106 | one step equals the specification and returns the wire position |
| `Trapezoid.WireOfCount` | src/viam/lib/trapezoid.hpp:129-132 | a 32-bit count survives the trip through the generator to the wire |
| `Trapezoid.HoldingIsRest` | src/viam/lib/trapezoid.hpp:25-106 | holding means velocity 0, through every command and step |
| `Trapezoid.StopRampBound` | src/viam/lib/trapezoid.hpp:91-105 | from any velocity the ramp is at rest after exactly ceil of v/(a dt) steps, not before, and travels between v²/2a and v²/2a + a dt²/8 |
| `Trapezoid.StopStepsIsCeiling` | src/viam/lib/trapezoid.hpp:91-105 | the step count is that ceiling |
| `Streaming.VelocityIsReached` | src/viam/lib/trapezoid.hpp:54-106 | from any state a velocity run comes accel dt closer a step, never past, so it reaches the commanded velocity and keeps it; it holds exactly when that is 0 and reached |
| `Streaming.OneStepCloser` | src/viam/lib/trapezoid.hpp:91-106 | and the position moves by the mean of the two velocities |
| `Streaming.GoalIsHeld` | src/viam/lib/trapezoid.hpp:39-90 | from any state a positioning move follows the profile's samples, holds exactly from the first that is the goal at rest, and keeps it on the wire |
| `Trapezoid.HoldingIsAtGoal` | src/viam/lib/trapezoid.hpp:30-106 | a holding generator's goal is the count on the wire, however the motion ended; every command and step keeps it |
| `Streaming.WireIsNearest` | src/viam/lib/trapezoid.hpp:128-132 | the wire carries the nearest count, halves away from zero |
| `MotionMode.ProfilePositionMode.GoTo` | src/viam/lib/motion_mode.cpp:69-75 | arms the set-point |
| `MotionMode.ProfilePositionMode.RunAt` | src/viam/lib/motion_mode.cpp:77-81 | switches to a velocity run |
| `MotionMode.ProfilePositionMode.Advance` | src/viam/lib/motion_mode.cpp:83-112 | echo gate and sequencer step equal the specification |
| `MotionMode.ProfilePositionMode.AdvanceShutdown` | src/viam/lib/motion_mode.cpp:114-125 | quick stop or coast |
| `MotionMode.CyclicPositionMode.Reset` | src/viam/lib/motion_mode.cpp:165-168 | seeds rest at zero |
| `MotionMode.CyclicPositionMode.GoTo` | src/viam/lib/motion_mode.cpp:178-183 | retargets, unless the generator refuses |
| `MotionMode.CyclicPositionMode.RunAt` | src/viam/lib/motion_mode.cpp:185-189 | velocity run, unless the generator refuses |
| `MotionMode.CyclicPositionMode.Advance` | src/viam/lib/motion_mode.cpp:191-195 | streams the generator |
| `MotionMode.CyclicPositionMode.Track` | src/viam/lib/motion_mode.cpp:197-202 | generator and target follow the actual |
| `MotionMode.CyclicPositionMode.AdvanceShutdown` | src/viam/lib/motion_mode.cpp:204-220 | the controlled stop equals the specification |
| `MotionMode.TorqueNeverCutAtSpeed` | src/viam/lib/motion_mode.cpp:204-220 | an enabled, unfaulted drive gets disable-voltage only at velocity 0 |
| `MotionMode.BrakeCycleIsShutdown` | src/viam/lib/motion_mode.cpp:204-220 | the braking cycle the bounds are about is the enabled branch of the shutdown step |
| `MotionMode.BrakeFollowsRamp` | src/viam/lib/motion_mode.cpp:211-217 | the shutdown cycles are the stop ramp, step by step |
| `MotionMode.ShutdownEndsAtRest` | src/viam/lib/motion_mode.cpp:204-220 | every generator state disables first at an exactly known cycle, at rest |
| `MotionMode.WindowOutlastsRamp` | src/viam/lib/motion_mode.cpp:170-176 | within the speed ceiling and below the cap the ramp takes at most shutdown_cycles − 19 |
| `MotionMode.ShutdownFitsWindow` | src/viam/lib/motion_mode.cpp:170-220 | the whole shutdown, including a run not yet moving, ends at least 17 cycles before the window |
| `MotionMode.CommandsKeepTuned` | src/viam/lib/motion_mode.cpp:165-189 | no command makes the generator brake with another acceleration |
| `MotionMode.StepsKeepTuned` | src/viam/lib/motion_mode.cpp:191-220 | nor does any step |
| `Controller.BoundaryIsModulo` | src/viam/lib/servo_controller.cpp:764-765 | the pacing predicate of the run theorems is the code's modulus test |
| `Controller.SteadyCycle` | src/viam/lib/servo_controller.cpp:950-966 | a steady cycle is the lifecycle step of the routed state, tracked and published |
| `ServoControllers.PositionRing.Range` | src/viam/lib/servo_controller.cpp:463-468 | minimum and maximum of the window |
| `ServoControllers.PositionRing.PositionStable` | src/viam/lib/servo_controller.cpp:443-470 | the pushed ring equals the specification, whose meaning over histories is `RestWindow.AtRestExactly` |
| `RestWindow.AtRestExactly` | src/viam/lib/servo_controller.cpp:443-470 | from an empty ring of w places, after any actuals: at rest exactly when there were more than w and every two of the last w differ by at most the tolerance |
| `RestWindow.CyclePushesActual` | src/viam/lib/servo_controller.cpp:786-788 | every cycle of every state, stopping or not, pushes exactly its own actual, once |
| `RestWindow.RestOverRun` | src/viam/lib/servo_controller.cpp:443-470 | so over every run "at rest" is a statement about the actuals of the last w cycles |
| `SelectedModes.SelectedMode.Advance` | src/viam/lib/motion_mode.cpp:83-195 | one Operational cycle of whichever mode object is held equals the specification |
| `SelectedModes.SelectedMode.AdvanceShutdown` | src/viam/lib/motion_mode.cpp:114-220 | one cycle of its controlled stop does too |
| `ServoControllers.ServoController.AbortActiveMove` | src/viam/lib/servo_controller.cpp:430-441 | latches the reason; fails the active generation unless completed, with its wake |
| `ServoControllers.ServoController.FinishHomingRun` | src/viam/lib/servo_controller.cpp:1291-1309 | one verdict, then back to the ladder with a reset mode |
| `ServoControllers.ServoController.BeginResetting` | src/viam/lib/servo_controller.cpp:409-428 | first edge now unless the emergency stop is read |
| `ServoControllers.ServoController.RouteCommands` | src/viam/lib/servo_controller.cpp:582-615 | the routing equals the specification |
| `ServoControllers.ServoController.PublishHomingResult` | src/viam/lib/servo_controller.cpp:1291-1296 | one verdict published, with its wake |
| `ServoControllers.ServoController.RunEnabling` | src/viam/lib/servo_controller.cpp:625-661 | the object's Enabling cycle equals the specification, whose word `Energizing.EnergizesExactly` and `Energizing.UnechoedStaysOff` pin |
| `ServoControllers.ServoController.RunOperational` | src/viam/lib/servo_controller.cpp:662-694 | faults, disable, homing, quick-stop, motion, in that order |
| `ServoControllers.ServoController.RunHoming` | src/viam/lib/servo_controller.cpp:695-738 | the homing state |
| `ServoControllers.ServoController.RunResetting` | src/viam/lib/servo_controller.cpp:739-766 | the recovery state, with the code's modulus |
| `StoppingWindow.WindowStopsAtRest` | src/viam/lib/servo_controller.cpp:896-919 | in the stopping window of any run an enabled cyclic drive is streamed the stop ramp and gets disable-voltage exactly from the known cycle on, at rest, 17 cycles or more before the end |
| `StoppingWindow.WindowFollowsBrake` | src/viam/lib/servo_controller.cpp:896-919 | cycle by cycle, the window streams the braking generator |
| `StoppingWindow.ProfileStopWord` | src/viam/lib/motion_mode.cpp:114-125 | in profile mode: the drive's quick-stop ramp while it was energized and is neither faulted nor off, else disable-voltage |
| `ServoControllers.ServoController.RunLifecycle` | src/viam/lib/servo_controller.cpp:617-773 | the six-state step equals the specification |
| `ServoControllers.ServoController.Publish` | src/viam/lib/servo_controller.cpp:782-833 | rest, completion and fault level published as specified, with their wakes |
| `ServoControllers.ServoController.Step` | src/viam/lib/servo_controller.cpp:895-967 | a cycle of the object, with its mode objects, is exactly `Controller.Cycle`, so every run theorem below is about it |
| `OpLog.CycleIsItsLog` | src/viam/lib/servo_controller.cpp:575-837 | each cycle's atomics are its publications applied in order, it adopts only the drained set-point, and the wake counter moves once per publication that owes a wake |
| `OpLog.FirstTerminalWins` | src/viam/lib/servo_controller.cpp:782-804 | over every run, a generation that ended failed is never published completed, nor the reverse, unless pushed again |
| `Completion.ProfileBacked` | src/viam/lib/motion_mode.cpp:83-112 | a mode step, echoed or not, never runs ahead of what has been recorded of the handshake |
| `ProfileMoves.StepEnds` | src/viam/lib/motion_mode.cpp:83-112 | when one cycle of the mode ends idle in position mode without failing the move |
| `ProfileMoves.LiveMoveCompletesExactly` | src/viam/lib/servo_controller.cpp:575-804 | for every cycle of every lifecycle state, stopping ones too: a live profile move is completed in it exactly under a condition on the routed state and the inputs, bit 4 then low |
| `Completion.TrackedThroughRun` | src/viam/lib/servo_controller.cpp:575-804 | where the move's set-point is (unsent, sent with what was seen of its handshake, replaced), through every cycle of every run |
| `Completion.CompletedOrNeverSent` | src/viam/lib/servo_controller.cpp:575-804 | over every run from the adoption: completed after its own target was shipped with bit 4, bit 12 seen high, bit 4 dropped, bit 12 seen low; or never handed over since the adoption or the mode's last reset |
| `Completion.CompletionIsReal` | src/viam/lib/servo_controller.cpp:687-804 | handed over when adopted and Operational since: completed only after those four events in order, whatever later echoes, quick-stops and commands |
| `Completion.TimeoutFailsMove` | src/viam/lib/servo_controller.cpp:687-693 | a handshake timeout publishes the active generation failed, and no later cycle completes it |
| `CyclicMoves.LiveMoveCompletesExactly` | src/viam/lib/servo_controller.cpp:575-804 | for every cycle of every lifecycle state, stopping ones too: a live cyclic move, accepted or refused, is completed in it exactly when the drive is enabled, it does not fault in Operational and the mode it leaves holds within tolerance of the actual, at rest |
| `CyclicMoves.OffCompletesExactly` | src/viam/lib/servo_controller.cpp:957-962 | in a cycle that ends off the move's own target is irrelevant |
| `CyclicMoves.HeldCompletesExactly` | src/viam/lib/servo_controller.cpp:687-804 | a held move that stays on completes exactly at its hold point, and otherwise stays held |
| `CyclicMoves.CompletedHow` | src/viam/lib/servo_controller.cpp:575-804 | over every run from the adoption: completed at its own target, or stranded where the generator was last reseeded, or refused, or braked by the shutdown |
| `CyclicMoves.CyclicCompletionIsReal` | src/viam/lib/servo_controller.cpp:595-804 | accepted and Operational throughout: completed only with the generator holding at the move's own target, the actual within tolerance, the shaft at rest and the drive enabled |
| `CyclicMoves.RefusedMoveFollowsOldCourse` | src/viam/lib/trapezoid.hpp:41-50 | every refused adoption: the mode is left as without the set-point, and the move is completed exactly when that course ends |
| `FaultRecovery.CycleRecovers` | src/viam/lib/servo_controller.cpp:575-773 | every cycle, in any motion mode, is one step of the recovery relation |
| `FaultRecovery.ResetBitOnlyInResetting` | src/viam/lib/servo_controller.cpp:739-766 | bit 7 is shipped only on entry to or inside Resetting; no automatic edge while the emergency-stop code is read |
| `FaultRecovery.ZeroConfirmLeaksResetBit` | src/viam/lib/servo_controller.cpp:747-754 | why the confirm count must be at least 1 |
| `FaultRecovery.ResetIsRisingEdge` | src/viam/lib/servo_controller.cpp:755-765 | each automatic reset follows a word with bit 7 low |
| `FaultRecovery.EdgesAreWindowApart` | src/viam/lib/servo_controller.cpp:755-765 | within one stay automatic edges are at least a window apart |
| `FaultRecovery.EnablingNeedsConfirmStreak` | src/viam/lib/servo_controller.cpp:746-754 | Enabling is re-entered only after the confirm streak of Resetting cycles without Fault |
| `HomingRun.CycleHomes` | src/viam/lib/servo_controller.cpp:674-738 | every cycle is one step of the homing relation |
| `HomingRun.HomingIsBounded` | src/viam/lib/servo_controller.cpp:674-738 | any inputs leave Homing within timeout_cycles + 200 cycles of entering it |
| `HomingRun.OneVerdictPerRun` | src/viam/lib/servo_controller.cpp:695-738 | exactly one verdict per run, apart from answers to stray start commands |
| `HomingRun.AttainedIsTruthful` | src/viam/lib/servo_controller.cpp:708-728 | Done only in a cycle echoing mode 6 with bit 12 set and bit 13 clear, with home_counts that cycle's actual and a zero offset |
| `HomingRun.StartBitExactly` | src/viam/lib/servo_controller.cpp:696-738 | in every cycle of a run bit 4 is high exactly while the mode is echoed and the run goes on, Halt exactly on a drive error or the timeout, and a run that ends names its cause |
| `HomingRun.EntryLeavesBitLow` | src/viam/lib/servo_controller.cpp:674-681 | the entry word has bit 4 low, so the start is a rising edge |
| `Energizing.CycleEndsIn` | src/viam/lib/servo_controller.cpp:617-773 | the state every steady cycle ends in, exactly; which states heed a disable |
| `Energizing.EnergizesExactly` | src/viam/lib/servo_controller.cpp:617-773 | for every cycle, stopping ones too: the word takes a standard drive to OperationEnabled, or keeps it there, exactly under a condition on the state and the inputs |
| `Energizing.UnechoedStaysOff` | src/viam/lib/servo_controller.cpp:632-648 | until the commanded mode is echoed a switched-on or enabled drive stays in Enabling and is held at SwitchedOn, with the mode on 0x6060 |
| `Energizing.QuickStopPassesGate` | src/viam/lib/servo_controller.cpp:636-660 | a drive in its quick-stop reaction is not held |
| `Energizing.ClimbsToOperational` | src/viam/lib/servo_controller.cpp:625-661 | a standard drive with its mode echoed is Operational after exactly its rungs and one cycle |
| `Energizing.MissingEchoIsReported` | src/viam/lib/servo_controller.cpp:636-648 | without an echo it is held for ever, and the mismatch is reported from the 200th held cycle on, no earlier |
| `Energizing.DisabledStaysOff` | src/viam/lib/servo_controller.cpp:767-772 | from a heeded disable to the next enable every word is disable-voltage |
| `Energizing.QuickStopShips` | src/viam/lib/servo_controller.cpp:682-684 | a quick-stop command ships the quick-stop word and leaves the mode alone |
| `Energizing.FaultLevelIsPublished` | src/viam/lib/servo_controller.cpp:828-830 | each cycle publishes the fault level of its own inputs |
| `Energizing.ErrorNamesItsCause` | src/viam/lib/servo_controller.cpp:582-694 | an error newly reported names a cause found in that cycle; a fault and a detected mode failure are always reported |
| `NoLunge.BringupStagesActual` | src/viam/lib/servo_controller.cpp:869-875 | a bring-up dispatch puts the actual on the wire |
| `NoLunge.CycleOnWire` | src/viam/lib/servo_controller.cpp:950-962 | one cycle keeps wire and generator equal |
| `NoLunge.NoLungeOverRun` | src/viam/lib/servo_controller.cpp:575-962 | over every run 0x607A is the generator's wire position, is that cycle's actual outside Operational, and Operational starts from a sampled actual |
| `NoLunge.CycleDriven` | src/viam/lib/motion_mode.cpp:178-220 | no cycle takes the generator past its speed ceiling |
| `NoLunge.ReachableShutdownFitsWindow` | src/viam/lib/motion_mode.cpp:170-220 | from every reachable state a shutdown disables at rest inside the window |
| `MoveProtocol.OwnStep` | src/viam/lib/servo_controller.cpp:1141-1194 | a call's own step keeps its part of the invariant |
| `MoveProtocol.OtherCall` | src/viam/lib/servo_controller.cpp:1141-1194 | another call's step keeps it too |
| `MoveProtocol.LoopKeepsShared` | src/viam/lib/servo_controller.cpp:782-804 | a step of the loop keeps the history |
| `MoveProtocol.RunKeepsInv` | src/viam/lib/servo_controller.cpp:1128-1296 | the invariant holds in every interleaving of any number of move, home and stop calls, home answers included |
| `MoveProtocol.SingleInFlight` | src/viam/lib/servo_controller.cpp:1128-1160 | at most one call holds the slot with a non-terminal generation, and it is the one in the slot |
| `MoveProtocol.NoOtherClaim` | src/viam/lib/servo_controller.cpp:1146-1160 | until it is terminal or let go, no other claim succeeds |
| `MoveProtocol.NeverBothTerminal` | src/viam/lib/servo_controller.cpp:430-441 | no generation is ever both completed and failed |
| `MoveProtocol.NoLostWakeup` | src/viam/lib/servo_controller.cpp:1162-1296 | once every publisher has bumped, a sleeping move or homing waiter has nothing to wake for |
| `MoveProtocol.HomeAnswerIsAttained` | src/viam/lib/servo_controller.cpp:1277-1289 | in every interleaving a home call that answers attained was followed, after its own announcement, by a published verdict of attained |
| `MoveProtocol.HomeAnswersExactly` | src/viam/lib/servo_controller.cpp:1277-1289 | left alone, a home waiter answers attained exactly when that is published, failed exactly when the run failed or nothing will end it, and then publishes Failed |
| `MoveProtocol.RefusedHomeFails` | src/viam/lib/servo_controller.cpp:1334-1356 | a home call whose objects are refused ends failed, with Failed published and the slot let go |
| `MoveProtocol.GivesUpExactly` | src/viam/lib/servo_controller.cpp:1169-1193 | left alone, a move waiter gives up exactly when it does not return normally and the loop stopped, exited, failed it or faulted |
| `MoveProtocol.EndedLetsGo` | src/viam/lib/servo_controller.cpp:1141-1144 | a home call that ended, and a move call that failed, no longer hold the slot |
| `MoveProtocol.ClaimsExactly` | src/viam/lib/servo_controller.cpp:1146-1160 | left alone, a claimer is refused exactly when the slot holds a generation that is not terminal |
| `MoveProtocol.SuccessMeansCompletedOrSuperseded` | src/viam/lib/servo_controller.cpp:1174-1177 | a call that returned normally completed or was superseded by a higher generation |
| `MoveProtocol.ReturnsExactly` | src/viam/lib/servo_controller.cpp:1169-1193 | left alone, a waiter returns normally exactly when its number is at most the completed one or below the active one |
| `MoveProtocol.NormalReturnMeaning` | src/viam/lib/servo_controller.cpp:1169-1193 | in every reachable state: a normal return is own completion when no higher generation was adopted; a completion is missed only after a lower generation completed since |
| `MoveProtocol.OvertakenCallerReturnsEarly` | src/viam/lib/servo_controller.cpp:1146-1177 | the family of states where an overtaken claimer returns without a move |
| `MoveProtocol.OvertakingIsReachable` | src/viam/lib/servo_controller.cpp:1414-1415 | such a state is reached |
| `MoveProtocol.MissedCompletionIsReachable` | src/viam/lib/servo_controller.cpp:1128-1177 | a completed move its own waiter no longer sees is reached |
| `MoveProtocol.FailedThenSupersededIsReachable` | src/viam/lib/servo_controller.cpp:1146-1177 | a failed move whose waiter returns normally is reached |
| `LoopSchedule.CycleIsSchedule` | src/viam/lib/servo_controller.cpp:895-967 | with any API steps before the drain and between publications, the loop steps of a controller cycle leave its atomics and every wake sent |
| `Seqlock.ValidReadIsOneFrame` | src/ethercat/pdo_cache.cpp:19-90 | in every interleaving a valid read shows exactly the newest frame committed at its last access |
| `Seqlock.ReadsNeverGoBack` | src/ethercat/pdo_cache.cpp:50-90 | successive reads of one reader never go back |
| `Seqlock.NextIsSafe` | src/ethercat/pdo_cache.cpp:19-90 | every shared access keeps the writer's and readers' invariant |
| `Seqlock.PublishIsWaitFree` | src/ethercat/pdo_cache.cpp:19-48 | at most size + 4 writer accesses commit the frame, whatever readers do |
| `Seqlock.ReadIsBounded` | src/ethercat/pdo_cache.cpp:50-90 | a read returns within its access budget, whatever the writer does |
| `Seqlock.FreshCallBudget` | src/ethercat/pdo_cache.cpp:50-90 | the budget is 16 (size + 4) + 1 |
| `Seqlock.QuietReadIsValid` | src/ethercat/pdo_cache.cpp:50-78 | on any of its 16 attempts a reader that finds no write begun and is left alone returns the newest committed frame, valid |
| `Seqlock.OddReadIsStale` | src/ethercat/pdo_cache.cpp:50-90 | while a write is under way or abandoned it gives up after exactly its attempts, with the cycle in memory |
| `Seqlock.RxSnapshot.Publish` | src/ethercat/pdo_cache.cpp:19-48 | leaves the padded or truncated frame and a higher even number, from any parity |
| `Seqlock.RxSnapshot.Read` | src/ethercat/pdo_cache.cpp:50-90 | undisturbed: memory when even, stale when odd |
| `Seqlock.PublishThenRead` | src/ethercat/pdo_cache.cpp:19-90 | a read after a publish shows that frame, padded or truncated |
| `Runner.ReasonIsWrittenOnce` | src/ethercat/runner.cpp:83-91 | in every interleaving the reason is the first cause and never changes |
| `Runner.EndedShape` | src/ethercat/runner.cpp:257-384 | the hook log of an ended body has exactly one of two shapes, told apart by the bring-up readings; as many steady cycles as fault readings let by, and stopping cycles up to the first complete teardown report or teardown_cycles |
| `Runner.ToldExactlyOnce` | src/ethercat/runner.cpp:290-352 | on_stop runs exactly once per control |
| `Runner.NoStepBeforeOperational` | src/ethercat/runner.cpp:301-351 | no step before on_operational of every control; `Runner.ServedExactlyWhenUp` puts that after the bring-up verdict |
| `Runner.ServedExactlyWhenUp` | src/ethercat/runner.cpp:277-305 | a control is announced or stepped only if the last bring-up reading is Operational and all before it in progress; then every one is announced first |
| `Runner.CausesTell` | src/ethercat/runner.cpp:277-340 | in every interleaving each cause latched has its event and each event its cause: an aborted or timed-out reading, a fault reading, a thread that asked |
| `Runner.RaisedFlagEndsBody` | src/ethercat/runner.cpp:257-384 | once the flag is up the body ends within a bounded number of its own steps |
| `Runner.LeftIsBounded` | src/ethercat/runner.cpp:257-384 | the bound in numbers |
| `Master.Master.BringupStep` | src/ethercat/master.cpp:227-318 | one bring-up call, with its OP request, acknowledgements and kept AL code, equals the specification and arms the latch on Operational |
| `Master.Master.Process` | src/ethercat/master.cpp:320-345 | one steady exchange, with both kept working counters, equals the specification |
| `Master.BringupRefinesHistory` | src/ethercat/master.cpp:227-318 | OP requested once at the settle target; nudges and kept AL code; Operational, Aborted, Gating and AwaitingOp each exactly when the history says |
| `Master.ResultsAreAbsorbing` | src/ethercat/master.cpp:312-316 | both results are final |
| `Master.LatchRefinesHistory` | src/ethercat/master.cpp:287-345 | fault exactly when some run of max(1, max) bad cycles lies wholly after the grace; counters are counts; the kept working counters are the last good and the last tripping one |
| `DcLock.PhaseCorrection` | src/ethercat/dc_sync.hpp:25-56 | the correction equals the specification, whose direction and size `DcInBand.ErrorIsPulledBack` states; both outputs bounded; inert without a clock |
| `DcLock.PhaseErrorIsShortest` | src/ethercat/dc_sync.hpp:33-38 | truncating normalize-and-wrap yields the shortest signed distance to the grid |
| `DcLock.OneCycleCloser` | src/ethercat/dc_sync.hpp:33-56 | outside ±50 µs the error shrinks by at least 500 ns and keeps its sign |
| `DcLock.ErrorShrinks` | src/ethercat/dc_sync.hpp:25-56 | by 500 ns a cycle while outside the band |
| `DcLock.BandIsEntered` | src/ethercat/dc_sync.hpp:25-56 | the band is entered within (cycle/2)/500 cycles, whole skipped periods included |
| `DcLock.BoundsAlwaysHold` | src/ethercat/dc_sync.hpp:44-55 | integral within 20·max and correction within max, whatever the clock does |
| `DcInBand.AccumulatorCounts` | src/ethercat/dc_sync.hpp:39-50 | one count of the error's sign a cycle, none at zero, within the bounds |
| `DcInBand.SteeredOpposes` | src/ethercat/dc_sync.hpp:39-56 | the size and direction of the correction for every error and accumulator, the opposing one included |
| `DcInBand.ErrorIsPulledBack` | src/ethercat/dc_sync.hpp:39-56 | for every clock, shift and limit: an error of 100 ns or more the accumulator does not oppose is pulled back by its hundredth and 1 ns per 20 counts, up to the limit |
| `DcInBand.OneCycle` | src/ethercat/dc_sync.hpp:39-56 | in closed loop the error loses exactly that pull, and so crosses the target exactly when the pull exceeds it |
| `DcInBand.FastLoopClosesIn` | src/ethercat/dc_sync.hpp:25-56 | at 7 Hz or more, from any clock and with any skipped periods, the error shrinks every cycle on its own side until it is below 100 ns, within 1979 cycles |
| `DcInBand.SlowLoopCrosses` | src/ethercat/dc_sync.hpp:25-56 | at 6 Hz or less some run throws an error of 100 ns across |
| `DcInBand.ClosesInExactlyFrom7Hz` | src/ethercat/dc_sync.hpp:25-56 | every run closes in exactly when the configured rate is 7 Hz or more |
| `DcLock.DcPacer.Advance` | src/ethercat/realtime.hpp:104-108 | the deadline moves forward, by exactly period + correction above the clamp |
| `DcLock.DcPacer.AdvanceToDeadline` | src/ethercat/realtime.hpp:118-130 | skips the fewest whole periods that put the deadline ahead of the clock |
| `PdoMapping.UnpackPack` | src/ethercat/pdo_mapping.cpp:86-89 | the packed entry decodes to itself |
| `PdoMapping.AssignIndex` | src/ethercat/pdo_mapping.hpp:35-40 | the assignment object of the direction's sync manager, unless overridden |
| `PdoMapping.WritePdo` | src/ethercat/pdo_mapping.cpp:83-92 | accepted exactly when no active assignment locks the PDO; then it lists the packed entries |
| `PdoMapping.WriteList` | src/ethercat/pdo_mapping.cpp:83-92 | accepted exactly when the object is open; then it lists the values |
| `PdoMapping.ApplyPdoMap` | src/ethercat/pdo_mapping.cpp:47-107 | from any dictionary and for every map: which of rejected, refused (for which problem) and applied it is; applied, the drive lists exactly the map and nothing else changed |
| `PdoMapping.NeverRejected` | src/ethercat/pdo_mapping.cpp:47-107 | a map without the assignment object among its PDOs is never rejected, duplicates or not |
| `PdoMapping.MappedDecodes` | src/ethercat/pdo_mapping.cpp:83-92 | listing the packed entries decodes to the configured ones |
| `ProcessImage.ByteSize` | src/ethercat/pdo_mapping.cpp:34-45 | the bit sum over the map in bytes, or none when not whole |
| `ProcessImage.BuildFieldTable` | src/ethercat/master.cpp:106-130 | succeeds exactly on listed, aligned maps, and the table describes the flattened map |
| `ProcessImage.KeyIsInjective` | src/ethercat/master.cpp:20-22 | an object has its own key |
| `ProcessImage.ResolvedAsMapped` | src/ethercat/master.cpp:430-458 | an object resolves to byte o exactly when the last entry that maps it has the wanted width and starts there; missing exactly when none does |
| `ProcessImage.DistinctKeysApart` | src/ethercat/master.cpp:106-130 | distinct keys occupy disjoint bytes |
| `ProcessImage.LocationFits` | src/ethercat/master.cpp:106-130 | every location is inside byte_size() when no PDO repeats |
| `ProcessImage.FieldsFitExactly` | src/ethercat/master.cpp:106-130 | all locations lie within a size exactly when the named entries end there |
| `ProcessImage.LocationsFitExactly` | src/ethercat/master.cpp:106-130 | for every map: all locations fit in byte_size() exactly when the named entries do |
| `ProcessImage.RepeatedPdoDoesNotFit` | src/ethercat/master.cpp:106-130 | a map with a repeated PDO where they do not |
| `PdoBuffer.StoreLe` | src/ethercat/pdo_buffer.hpp:69-77 | replaces exactly the field's bytes by the octets |
| `PdoBuffer.LoadLe` | src/ethercat/pdo_buffer.hpp:58-67 | the little-endian value of the field's bytes |
| `PdoBuffer.LoadAfterStore` | src/ethercat/pdo_buffer.hpp:58-77 | a load after a store gives the value, every width and sign |
| `PdoBuffer.StoreAfterLoad` | src/ethercat/pdo_buffer.hpp:58-77 | storing what was loaded changes nothing |
| `PdoBuffer.StoreKeepsOthers` | src/ethercat/pdo_buffer.hpp:69-77 | bytes outside the field are unchanged |
| `PdoBuffer.WithoutRepeatsFits` | src/ethercat/pdo_mapping.cpp:34-45 | every aligned map without a repeated PDO keeps its named entries within byte_size() |
| `PdoBuffer.FieldsAreLenses` | src/ethercat/master.cpp:106-130 | the fields of a map are independent lenses on any image its named entries end within |
| `SdoCodec.HexBytes` | src/ethercat/log.cpp:68-81 | prints the canonical form |
| `SdoCodec.EncodeBytes` | src/viam/lib/sdo_codec.cpp:86-106 | parses as specified, with both refusals |
| `SdoCodec.ParsePrinted` | src/viam/lib/sdo_codec.cpp:86-110 | parsing the printed form of any bytes gives them back |
| `SdoCodec.PrintParsed` | src/viam/lib/sdo_codec.cpp:86-110 | accepted texts are exactly even runs of hex digits, and print as their upper-case spaced form |
| `SdoCodec.IntRoundTrip` | src/viam/lib/sdo_codec.cpp:40-58 | decode after encode is the identity on exactly the type's range |
| `SdoCodec.IntBytesRoundTrip` | src/viam/lib/sdo_codec.cpp:40-58 | encode after decode gives back the bytes |

## Left out

- Weak memory: accesses are sequentially consistent steps, as the fences and release/acquire pairs justify.
- The Runner's loops are a step machine and not `while` loops, because other threads act between any two of its atomics; realtime setup, the join, and the image copies of `dispatch` are not modelled.
- The positioning profile (`TrapezoidProfile::Calculate`) is an arbitrary function; where its speed matters it is assumed to respect a speed limit it is given and meets, towards a goal at rest. Generator arithmetic is over reals, without rounding or NaN.
- Cycle counters, generations and the seqlock number are unbounded: no 32- or 64-bit wrap-around.
- All sequencer command objects are taken as mapped; the mode object's presence is a parameter in the controller.
- Instrumentation and reporting: bit-4 edge counts, velocity, moving and powered flags, the drive and bus error tiers, logging and error texts. The verdict counter and the publication log are additions of the model.
- The faulted flag that `on_stop` raises after an aborted bring-up, behind the exit flag and its wake.
- The seqlock's test seam that leaves the number odd.
- API argument checks, unit conversions, the stop-budget clamp (which `go_for`, against the comment at src/viam/lib/servo_controller.cpp:1119, does not apply), software zero, bus recovery, bring-up retry, configuration parsing, and the gRPC module around the controller.
- The SOEM backend, the NIC, mailbox traffic other than mapping writes, threads, clocks and priorities.
- Text integers, strings and floating-point scalars of the SDO codec and the process image.
- HomingRun.OneVerdictPerRun: a start command that arrives while a run is under way publishes its own verdict, which is counted apart.
- Sequencer.BitFourRiseIsHaltSettled: requires the preceding step to have run the handshake, because the rule fails after a gap; `Sequencer.RaisedIsSettledExactly` has no such proviso.
- CyclicMoves.CyclicCompletionIsReal: requires a speed the generator accepts, because a refused move completes where an older course ends (`CyclicMoves.RefusedMoveFollowsOldCourse`).
- ServoControllers.ServoController.Publish: position, velocity, powered, moving, mode echo and the drive and bus error tiers are plain stores that nothing modelled here reads back.
- ServoControllers.ServoController.Step: the velocity estimate from the previous actual, and logging.
- Master.Master.Process: the input snapshots it publishes are the seqlock's frames, modelled in `Seqlock`.
