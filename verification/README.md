# Verification of the UR5 workcell's gripper and sensor software

This project models the parts of the workcell that decide what a gripper does and what a sensor value
means, and proves what holds over whole runs of them. `dafny verify dfyconfig.toml` checks all of it.

**The three-finger gripper** (`Backend`, `Controller*`, `Driver*`, `Sim*`, `Workcell`, `ModbusTcp`,
`ProcessImage`, `Bytes`, `GripperUnits`). A controller publishes commands with fresh ids; a backend, either the
Modbus driver or the Gazebo simulator, executes them and publishes statuses that name the last command.
`Backend` states once what a backend promises: each connected status names the last command applied on its
connection (0 if none), and its fields were read after that. The controller is a step system of any number of
service and action threads, one atomic section of the source at a time, against any backend that keeps this
promise; statuses may come late, in any order, again, or never, and commands may be lost, reordered or
duplicated on their way. The driver is a step system of its worker thread and its command callback, one access
to a shared field at a time; the simulator is one of its callbacks. Both are shown to keep the promise, and
`Workcell` carries the controller's theorems over to both. `ControllerOutcomes`, `DriverOutcomes` and
`SimOutcomes` say what each of the three does in the fields and bytes of the messages themselves, and
`ControllerProgress` that every operation can succeed.

**CRC-16/MODBUS and the RTU frames** (`Folds`, `Crc*`, `ModbusFrames`, `ModbusRtu`): the bit-by-bit and the
table-driven checksum, and the request builders of the two serial drivers. The checksum is that of MODBUS over
Serial Line V1.02, section 6.2.2.

**The sensor streams** (`SampleParser`, `Parser*`, `Zeroing`, `Streamer*`, `Serial*`, `SensorState`): the
incremental parser of the TCP stream, software zeroing across reconnects, the receiver of the serial stream
with its watchdogs, and the loops above it.

**The numeric maps** (`Piecewise`, `JointMapping`, `SimMotion`, `Rounding`) and **the reactivation handshake**
of the two-finger gripper (`Reactivation`).

How the source's form is kept: objects that change their fields are classes with those fields, the serial
receiver and the simulator work on arrays in place, loops are loops, and each method is proved against a
specification function. Where several threads share fields, the theorems are about a step system whose steps
are the atomic sections; the classes `DriverNode.Node`, `ControllerNode.Node` and `Reactivation.Hardware` are
shown to take exactly those steps.

Several modules take a function as a parameter (the checksum test of the serial receiver, the payload parser of
the sample parser, the arithmetic of zeroing, the value of a table). The theorems hold for every such function;
the classes use the source's own, and `ParserPayload`, `SerialMeasurement`, `ZeroingOutcomes` and
`JointMapping.AllJoints` say what those compute.

## Where the code does not do what it says

- The driver's callback tests the ready flag outside the lock, so a command can outlive a disconnect, although
  the controller's messages say that requests are not replayed. `DriverTheorems.StaleExactlyWhenStraddling`
  gives the exact condition and `DriverReplay.StaleCommandIsWritten` a run.
- The zero service can report that the previous offset was retained when it was not: a failed reply is true if
  and only if the manager shows no result of the call when it is cancelled (`StreamerCalls.ReplyIsTrueExactly`);
  `Streamer.FailedCallChangesBias` is a run in which it is not.
- `rq_com_start_stream` never advances its retry counter and so never returns -1; and the state switch
  overwrites the return to the initial state (`SensorState.StartStream`, `SensorState.Machine.StartStreamPhase`).
- The simulator's constructor checks that the minimum speed is positive but not the maximum. Motions arrive,
  whatever is asked for, if and only if the maximum is positive (`SimMotion.AllArriveExactly`); and axes stay in
  the raw range if and only if it is not negative and the scissor positions of the modes, which are not checked
  either, are in that range (`SimRange.InRangeExactly`).

## Model

| member | source | states |
|---|---|---|
| `ControllerTheorems.ActivationIsReal` | ur5_ws/src/ur5_workcell/robotiq_3f/robotiq_3f_controller/src/controller_node.cpp:269-317 | In every run against any backend, a successful `activate` means that the gripper saw, on one connection that was neither opened nor closed in between, this call's reset command, a read showing the reset, this call's activate command, and a read showing it ready in the configured mode, with nothing but reads between each command and its read |
| `ControllerOutcomes.ActivationIsSeen` | ur5_ws/src/ur5_workcell/robotiq_3f/robotiq_3f_controller/src/controller_node.cpp:285-316 | The same in the fields of the messages: the first command has every bit and byte clear and was read as not activated with initialization 0; the second has only activate and the mode and was read as activated with initialization 3 and that mode |
| `ControllerTheorems.OperationIsReal` | ur5_ws/src/ur5_workcell/robotiq_3f/robotiq_3f_controller/src/controller_node.cpp:319-348 | A successful `deactivate` or motion had its own command written and then answered by a read of the same connection that shows what it waited for (and no fault), with only reads in between; that read is the one it reports. What that is in the fields of the messages is said by the next two rows |
| `ControllerOutcomes.DeactivationIsReal` | ur5_ws/src/ur5_workcell/robotiq_3f/robotiq_3f_controller/src/controller_node.cpp:335-347 | In every run a successful `deactivate` means that its own clear command was written and that the gripper was then read as not activated on the same connection, with only reads in between |
| `ControllerOutcomes.MotionIsReal` | ur5_ws/src/ur5_workcell/robotiq_3f/robotiq_3f_controller/src/controller_node.cpp:426-523 | In every run a successful motion means that its own command, carrying every field of the goal with activate and go-to, was written and that the gripper was then read with the goal's mode and positions (B, C and the scissor where they are controlled), go-to, initialization 3, a motion status other than 0 and a fault below 9 |
| `ControllerOutcomes.DeactivateLook` | ur5_ws/src/ur5_workcell/robotiq_3f/robotiq_3f_controller/src/controller_node.cpp:221-258 | One look of `deactivate` ends it with success if and only if the status at hand is connected, recent, of its connection, names its command and shows the gripper inactive; it fails if the wait breaks off or is late, and else waits on |
| `ControllerOutcomes.ResetLook` | ur5_ws/src/ur5_workcell/robotiq_3f/robotiq_3f_controller/src/controller_node.cpp:288-304 | The first wait of `activate` goes on to the activating command if and only if such a status shows not activated and initialization 0; it fails and waits on as above |
| `ControllerOutcomes.ReadyLook` | ur5_ws/src/ur5_workcell/robotiq_3f/robotiq_3f_controller/src/controller_node.cpp:303-316 | The second wait of `activate` ends with success if and only if such a status shows activated, initialization 3 and the mode |
| `ControllerOutcomes.MotionLook` | ur5_ws/src/ur5_workcell/robotiq_3f/robotiq_3f_controller/src/controller_node.cpp:453-513 | One look of a motion that finds its goal reported, with the motion over or a fault of at least 9, ends it: with success if and only if the fault is below 9. Any other end fails it, and while its connection stands publishes its command again without go-to |
| `ControllerOutcomes.BeginLook` | ur5_ws/src/ur5_workcell/robotiq_3f/robotiq_3f_controller/src/controller_node.cpp:377-390 | A call is let in if and only if no operation is under way and a motion's mode is at most 3; `stop` always is |
| `ControllerOutcomes.SnapshotLook` | ur5_ws/src/ur5_workcell/robotiq_3f/robotiq_3f_controller/src/controller_node.cpp:414-452 | An operation that was let in sends its first command, for the connection it sees, if and only if the status at hand is connected and recent and, for a motion, shows activated with initialization 3; what the command carries is said bit by bit |
| `ControllerProgress.OperationCanSucceed` | ur5_ws/src/ur5_workcell/robotiq_3f/robotiq_3f_controller/src/controller_node.cpp:269-523 | No operation is stuck: after any run that leaves the controller idle with a status of the gripper's open connection (and for a motion the gripper ready), `activate`, `deactivate` and every motion in modes 0 to 3 can be carried to success |
| `ControllerTheorems.MotionResultIsDecided` | ur5_ws/src/ur5_workcell/robotiq_3f/robotiq_3f_controller/src/controller_node.cpp:509-523 | A motion that succeeds reports exactly one of reached and stopped by contact, for its own goal and without a fault |
| `ControllerOutcomes.ResultMeans` | ur5_ws/src/ur5_workcell/robotiq_3f/robotiq_3f_controller/src/controller_node.cpp:515-519 | Reached is motion status 3, and stopped by contact is 1 or 2 |
| `ControllerTheorems.OperationsExclude` | ur5_ws/src/ur5_workcell/robotiq_3f/robotiq_3f_controller/src/controller_node.cpp:260-267 | What activate, deactivate and the two actions publish comes in blocks that do not interleave, with strictly increasing ids, none zero; only `stop` publishes in between |
| `ControllerTheorems.BusyMeansOne` | ur5_ws/src/ur5_workcell/robotiq_3f/robotiq_3f_controller/src/controller_node.cpp:36-45 | In every reachable state the busy flag is set exactly while some operation is between entering and releasing it, and never two of them |
| `ControllerTheorems.FailedMotionIsStopped` | ur5_ws/src/ur5_workcell/robotiq_3f/robotiq_3f_controller/src/controller_node.cpp:489-508 | A motion that published its command and ended without the awaited report, while the last status it saw showed its connection up, has published the same command without the go-to bit, and nothing else, before it releases the flag |
| `ControllerTheorems.SuccessPublishes` | ur5_ws/src/ur5_workcell/robotiq_3f/robotiq_3f_controller/src/controller_node.cpp:444-523 | An operation that succeeds has published exactly its own commands; a motion no stop copy |
| `ControllerHistory.ReplyMeans` | ur5_ws/src/ur5_workcell/robotiq_3f/robotiq_3f_controller/src/controller_node.cpp:227-249 | A connected status that names a command whose id was fresh can only have been read after that very command was written, with only reads in between: the argument that late, repeated and reordered statuses do no harm |
| `ControllerInvariants.StepIds` | ur5_ws/src/ur5_workcell/robotiq_3f/robotiq_3f_controller/src/controller_node.cpp:202-212 | Every step keeps ids unique: those sent, and those taken and not yet sent |
| `ControllerWrap.OldAnswerAccepted` | ur5_ws/src/ur5_workcell/robotiq_3f/robotiq_3f_controller/src/controller_node.cpp:202-212 | Past 2^64 commands the guarantee is lost: a concrete run in which a motion is given an id again and succeeds without its command ever being written |
| `ControllerWrap.ZeroIdAccepted` | ur5_ws/src/ur5_workcell/robotiq_3f/robotiq_3f_controller/src/controller_node.cpp:202-212 | Already command 2^64 has no guarantee, so the bound of the theorems is exact: its id is 0, and a motion with it succeeds on a status that answers no command, with nothing written |
| `ControllerNode.WaitForStatus` | ur5_ws/src/ur5_workcell/robotiq_3f/robotiq_3f_controller/src/controller_node.cpp:214-258 | The wait loop over any observations does what the polls of the step system do, and returns at the first one that ends the wait |
| `ControllerNode.Node.CurrentStatus` | ur5_ws/src/ur5_workcell/robotiq_3f/robotiq_3f_controller/src/controller_node.cpp:182-200 | The status an operation starts from: one that is there, connected and recent, or nothing |
| `ControllerNode.Node.BeginOperation` | ur5_ws/src/ur5_workcell/robotiq_3f/robotiq_3f_controller/src/controller_node.cpp:260-267 | Lets in exactly one caller and leaves the flag set either way |
| `ControllerNode.Node.PublishCommand` | ur5_ws/src/ur5_workcell/robotiq_3f/robotiq_3f_controller/src/controller_node.cpp:202-212 | Takes the next 64-bit id, stores and sends the command: the three steps of the step system in a row |
| `ControllerNode.Node.Stop` | ur5_ws/src/ur5_workcell/robotiq_3f/robotiq_3f_controller/src/controller_node.cpp:350-375 | Succeeds exactly on a connected, recent status; sends the last command of any operation without go-to and automatic release, or if there is none a command with nothing but the activation and mode it sees, and leaves the busy flag alone |
| `Backend.ReadIsGenuine` | ur5_ws/src/ur5_workcell/robotiq_3f/robotiq_3f_driver/src/driver_node.cpp:131-143 | A status published right after a read, naming the command in effect on the connection, is truthful in the sense of the contract: it names the last command applied on its connection, 0 if none, and its fields were read after that |
| `DriverTheorems.DriverIsBackend` | ur5_ws/src/ur5_workcell/robotiq_3f/robotiq_3f_driver/src/driver_node.cpp:157-227 | Every step of the driver, in any interleaving of worker and callback, keeps its invariant and is a step the backend contract allows |
| `SimRuns.SimIsBackend` | ur5_ws/src/ur5_workcell/simulation/ur5_workcell_sim/scripts/robotiq_3f_sim_backend.py:151-261 | Every callback of the simulator keeps its invariant and is a step the same contract allows |
| `DriverCell.RunIsContractRun` | ur5_ws/src/ur5_workcell/robotiq_3f/robotiq_3f_controller/src/controller_node.cpp:170-258 | Every run of the controller with the real driver is, for the controller, a run against the contract |
| `DriverCell.ActivationIsReal` | ur5_ws/src/ur5_workcell/robotiq_3f/robotiq_3f_controller/src/controller_node.cpp:269-317 | The activation guarantee for the controller with the driver behind it, stated on the driver's own log |
| `SimCell.RunIsContractRun` | ur5_ws/src/ur5_workcell/robotiq_3f/robotiq_3f_controller/src/controller_node.cpp:170-258 | Every run of the controller with the simulator is, for the controller, a run against the contract |
| `DriverTheorems.WritesAreAccepted` | ur5_ws/src/ur5_workcell/robotiq_3f/robotiq_3f_driver/src/driver_node.cpp:105-129 | In every run the commands written, failed writes included, are accepted ones in order of acceptance, and no acceptance is written twice |
| `DriverTheorems.ConnectionsStartWithRead` | ur5_ws/src/ur5_workcell/robotiq_3f/robotiq_3f_driver/src/driver_node.cpp:195-209 | In every run each write is preceded by a status read on its connection |
| `DriverTheorems.AtomicNeverReplays` | ur5_ws/src/ur5_workcell/robotiq_3f/robotiq_3f_driver/src/driver_node.cpp:105-129 | If the callback runs as one step, every command goes out on the connection on which it was accepted |
| `DriverTheorems.StaleExactlyWhenStraddling` | ur5_ws/src/ur5_workcell/robotiq_3f/robotiq_3f_driver/src/driver_node.cpp:121-128 | With the ready flag tested outside the lock: a written command goes out on the connection it was accepted on if and only if no disconnect emptied the pending slot between the test and the store |
| `DriverReplay.StaleCommandIsWritten` | ur5_ws/src/ur5_workcell/robotiq_3f/robotiq_3f_driver/src/driver_node.cpp:121-128 | A concrete run in which a command let in on connection 1 is written on connection 2 |
| `DriverTheorems.UnconfiguredNeverConnects` | ur5_ws/src/ur5_workcell/robotiq_3f/robotiq_3f_driver/src/driver_node.cpp:159-165 | Without an address no connection is opened, nothing is written and no status is connected |
| `DriverNode.Node.ReceiveCommand` | ur5_ws/src/ur5_workcell/robotiq_3f/robotiq_3f_driver/src/driver_node.cpp:105-129 | The callback makes a command the pending one exactly when the driver is ready, the command can be packed, its id is not 0 and it asks for automatic release only where that is allowed; any other changes nothing |
| `DriverOutcomes.AcceptedExactly` | ur5_ws/src/ur5_workcell/robotiq_3f/robotiq_3f_driver/src/driver_node.cpp:105-129 | A command that arrives is the pending one afterwards if and only if the driver is ready, the command can be packed, its id is not 0 and its automatic release is off or allowed; else the state is unchanged |
| `DriverOutcomes.WritesAreFit` | ur5_ws/src/ur5_workcell/robotiq_3f/robotiq_3f_driver/src/driver_node.cpp:105-129 | In every run whatever is written or attempted has an id and a mode of at most 3, and none of it asks for automatic release where the configuration does not allow it |
| `DriverOutcomes.PendingIsDelivered` | ur5_ws/src/ur5_workcell/robotiq_3f/robotiq_3f_driver/src/driver_node.cpp:195-217 | With a connection that is up and transactions that work, a round writes the pending command, reads once and publishes a connected status naming that command with what was read |
| `DriverOutcomes.ConnectingReads` | ur5_ws/src/ur5_workcell/robotiq_3f/robotiq_3f_driver/src/driver_node.cpp:171-210 | Connecting takes the next connection number and reads once before anything is written; the status names no command |
| `DriverOutcomes.FailureDisconnects` | ur5_ws/src/ur5_workcell/robotiq_3f/robotiq_3f_driver/src/driver_node.cpp:145-155 | A transaction that fails closes the connection, drops what is pending, locks commands out and publishes a disconnected status with id 0 |
| `DriverNode.Node.MarkDisconnected` | ur5_ws/src/ur5_workcell/robotiq_3f/robotiq_3f_driver/src/driver_node.cpp:145-155 | Locks commands out, forgets the last id and the pending command, and publishes a disconnected status with id 0 |
| `DriverNode.Node.WritePending` | ur5_ws/src/ur5_workcell/robotiq_3f/robotiq_3f_driver/src/driver_node.cpp:197-205 | Takes the pending command only if commands are let in; if it is written its id becomes the last one, if not nothing is left pending |
| `DriverNode.Node.ReadAndPublish` | ur5_ws/src/ur5_workcell/robotiq_3f/robotiq_3f_driver/src/driver_node.cpp:207-210 | A read that works is published as connected with the last command's id, and lets commands in |
| `DriverNode.Node.Run` | ur5_ws/src/ur5_workcell/robotiq_3f/robotiq_3f_driver/src/driver_node.cpp:157-227 | The worker loop, for any number of rounds and any failures, takes the step system's steps; after a stop request it ends closed and locked |
| `DriverNode.WorksIsRun` | ur5_ws/src/ur5_workcell/robotiq_3f/robotiq_3f_driver/src/driver_node.cpp:157-227 | What the worker's methods do is a run of the step system, so its theorems hold of the object |
| `ProcessImageProofs.PackRoundTrip` | ur5_ws/src/ur5_workcell/robotiq_3f/robotiq_3f_driver/src/protocol.cpp:14-46 | Packing fails exactly for modes above 3, and the gripper reads back exactly the request that was packed |
| `ProcessImageProofs.PackInjective` | ur5_ws/src/ur5_workcell/robotiq_3f/robotiq_3f_driver/src/protocol.cpp:14-46 | No two requests share a process image |
| `ProcessImageProofs.PackedBytes` | ur5_ws/src/ur5_workcell/robotiq_3f/robotiq_3f_driver/src/protocol.cpp:22-45 | The sixteen bytes of every packed command as numbers: activate + 2 mode + 8 go-to + 16 automatic release, glove + 4 fingers + 8 scissor, 0, position, speed and force of A, B, C and the scissor, 0 |
| `SimCell.GripperCommandBytes` | ur5_ws/src/ur5_workcell/robotiq_3f/robotiq_3f_controller/src/controller_node.cpp:636-655 | The sixteen bytes a GripperCommand has written: 0x0B, 0, 0, three times position, speed and force, 0, speed, force, 0 |
| `ProcessImageProofs.StatusRoundTrip` | ur5_ws/src/ur5_workcell/robotiq_3f/robotiq_3f_driver/src/protocol.cpp:48-80 | A device state with two-bit fields survives the gripper's encoding and the driver's unpacking |
| `ProcessImageProofs.UnpackInRange` | ur5_ws/src/ur5_workcell/robotiq_3f/robotiq_3f_driver/src/protocol.cpp:48-80 | Whatever the registers hold, the unpacked two-bit fields hold two bits |
| `ProcessImageProofs.UnpackedBytes` | ur5_ws/src/ur5_workcell/robotiq_3f/robotiq_3f_driver/src/protocol.cpp:48-80 | For every image: activated + 2 mode + 8 go-to + 16 initialization + 64 motion is byte 0, the four contacts with weights 1, 4, 16 and 64 are byte 1, and the fault and the three bytes of each axis are the others in order |
| `SimBackend.Node.ReceiveCommand` | ur5_ws/src/ur5_workcell/simulation/ur5_workcell_sim/scripts/robotiq_3f_sim_backend.py:151-201 | The command handler leaves exactly the state its specification gives; commands with id 0 or a bad mode change nothing |
| `SimBackend.Node.MoveAxes` | ur5_ws/src/ur5_workcell/simulation/ur5_workcell_sim/scripts/robotiq_3f_sim_backend.py:213-220 | The loop over the axes moves each by its own step in place and tells whether any is still on its way |
| `SimBackend.Node.TimerCallback` | ur5_ws/src/ur5_workcell/simulation/ur5_workcell_sim/scripts/robotiq_3f_sim_backend.py:207-226 | The timer callback moves, publishes one status of the new state, and counts time that runs backwards as none |
| `SimMotion.MovedShortens` | ur5_ws/src/ur5_workcell/simulation/ur5_workcell_sim/scripts/robotiq_3f_sim_backend.py:213-220 | A step of at least 0 shortens the way by the step, down to 0, without overshoot |
| `SimMotion.DistanceAfter` | ur5_ws/src/ur5_workcell/simulation/ur5_workcell_sim/scripts/robotiq_3f_sim_backend.py:207-223 | After any number of updates the distance of each axis is its first distance less the way it can have come, down to 0, and it lies between start and target |
| `SimMotion.FinishedExactly` | ur5_ws/src/ur5_workcell/simulation/ur5_workcell_sim/scripts/robotiq_3f_sim_backend.py:221-223 | The motion is reported as finished if and only if every axis can have come all the way |
| `SimMotion.ArrivesInTime` | ur5_ws/src/ur5_workcell/simulation/ur5_workcell_sim/scripts/robotiq_3f_sim_backend.py:207-223 | With both configured speeds at least v and updates at least d apart, n updates cover n*v*d, and then the axes are at their targets and reported so |
| `SimMotion.ArrivesExactly` | ur5_ws/src/ur5_workcell/simulation/ur5_workcell_sim/scripts/robotiq_3f_sim_backend.py:207-223 | With updates at least some time apart, a motion is reported as reached after some number of updates, and from then on, if and only if every axis has a positive speed, or none and is at its target |
| `SimMotion.AllArriveExactly` | ur5_ws/src/ur5_workcell/simulation/ur5_workcell_sim/scripts/robotiq_3f_sim_backend.py:127-130 | Every motion from every state arrives if and only if the configured maximum speed is positive, which the constructor does not check; otherwise the first motion at full speed never does |
| `SimRange.InRangeExactly` | ur5_ws/src/ur5_workcell/simulation/ur5_workcell_sim/scripts/robotiq_3f_sim_backend.py:131-135 | The axes stay within 0 to 255 in every run if and only if the scissor positions configured for the modes are within it and the maximum speed is not negative |
| `SimRuns.ReachedMeansThere` | ur5_ws/src/ur5_workcell/simulation/ur5_workcell_sim/scripts/robotiq_3f_sim_backend.py:151-261 | In every run, activated and reached means that all four axes are at their targets, and outside scissor mode every such status shows finger A at its requested position |
| `SimOutcomes.ArrivesWhereSent` | ur5_ws/src/ur5_workcell/simulation/ur5_workcell_sim/scripts/robotiq_3f_sim_backend.py:177-201 | From any state, once a motion is reported as finished every axis is where its command sends it: each finger at its own or at finger A's position, the scissor at its own, at the mode's, or in scissor mode at A's with the fingers at 6 |
| `SimOutcomes.MovesAtItsSpeed` | ur5_ws/src/ur5_workcell/simulation/ur5_workcell_sim/scripts/robotiq_3f_sim_backend.py:203-220 | From any state, in one update each axis goes towards there by the time times the speed that its own raw speed byte, or finger A's, stands for between the two configured ones, and not past it |
| `SimOutcomes.StatusShowsPositions` | ur5_ws/src/ur5_workcell/simulation/ur5_workcell_sim/scripts/robotiq_3f_sim_backend.py:248-261 | Every status has the four positions to the nearest byte, clamped to 0 and 255, and reports the axes as moving exactly while the motion is |
| `SimOutcomes.AnswersActivation` | ur5_ws/src/ur5_workcell/simulation/ur5_workcell_sim/scripts/robotiq_3f_sim_backend.py:151-171 | The status after a command is connected and names it, and after a clear or an activating one it is what the controller waits for |
| `SimOutcomes.AnswersMotion` | ur5_ws/src/ur5_workcell/simulation/ur5_workcell_sim/scripts/robotiq_3f_sim_backend.py:151-226 | After a motion command every status names it, and is what the controller waits for if and only if the motion is reported as finished or there was a fault |
| `SimOutcomes.StopsWhereItIs` | ur5_ws/src/ur5_workcell/simulation/ur5_workcell_sim/scripts/robotiq_3f_sim_backend.py:165-176 | A command without go-to keeps every axis where it is from then on, reported as finished |
| `SimCell.GripperCommandIsAccurate` | ur5_ws/src/ur5_workcell/robotiq_3f/robotiq_3f_controller/src/controller_node.cpp:636-703 | A GripperCommand that succeeds on the simulator and reports its goal reached reports a position within (max opening - closed) / (2 * closed raw) of the request |
| `GripperUnits.NoWrap` | ur5_ws/src/ur5_workcell/robotiq_3f/robotiq_3f_controller/src/controller_node.cpp:525-553 | No accepted position or effort is changed by the cast to a byte, and no position goes past the closed one |
| `GripperUnits.PositionError` | ur5_ws/src/ur5_workcell/robotiq_3f/robotiq_3f_controller/src/controller_node.cpp:525-543 | A position and the position its raw value stands for differ by at most half a raw step |
| `GripperUnits.RawRoundTrip` | ur5_ws/src/ur5_workcell/robotiq_3f/robotiq_3f_controller/src/controller_node.cpp:525-543 | Every raw value up to the closed one comes back from the position it stands for |
| `GripperUnits.EffortError` | ur5_ws/src/ur5_workcell/robotiq_3f/robotiq_3f_controller/src/controller_node.cpp:545-553 | An effort, or the default one when none is asked for, and the effort its raw value stands for differ by at most (max - min) / 510 |
| `GripperUnits.AcceptedExactly` | ur5_ws/src/ur5_workcell/robotiq_3f/robotiq_3f_controller/src/controller_node.cpp:568-597 | A goal is let through if and only if its position is between open and closed and its effort, or the default one when it is 0, within its range: exactly when the unrounded raw values are |
| `GripperUnits.RangeEnds` | ur5_ws/src/ur5_workcell/robotiq_3f/robotiq_3f_controller/src/controller_node.cpp:525-553 | Fully open is raw 0 and closed the configured raw value; the greatest effort is raw 255 and a positive least one raw 0 |
| `ModbusTcp.Client.SendAll` | ur5_ws/src/ur5_workcell/robotiq_3f/robotiq_3f_driver/src/modbus_tcp_client.cpp:163-183 | However the socket takes the bytes, what is out is always a beginning of the data, and all of it on success; it succeeds exactly when the socket takes them all before the deadline |
| `ModbusTcp.Client.ReceiveExact` | ur5_ws/src/ur5_workcell/robotiq_3f/robotiq_3f_driver/src/modbus_tcp_client.cpp:185-207 | However the bytes arrive, exactly the next `size` bytes of the stream are returned and consumed, or fewer are consumed and nothing is returned; if the stream holds them, exactly when the socket delivers them before the deadline |
| `ModbusTcp.Client.Transact` | ur5_ws/src/ur5_workcell/robotiq_3f/robotiq_3f_driver/src/modbus_tcp_client.cpp:209-255 | A transaction succeeds if and only if one whole response with its id, unit and function code is next and the socket moves the request, the header and the rest each before its deadline; it consumes exactly that response; illegal requests and closed sockets change nothing |
| `ModbusTcp.FrameBytes` | ur5_ws/src/ur5_workcell/robotiq_3f/robotiq_3f_driver/src/modbus_tcp_client.cpp:219-226 | A request or response frame byte by byte: transaction id, protocol 0, length, unit, then the request or response |
| `ModbusTcp.ReadySocketMoves` | ur5_ws/src/ur5_workcell/robotiq_3f/robotiq_3f_driver/src/modbus_tcp_client.cpp:163-207 | A socket that is always ready and moves at least a byte a turn is in time whenever the deadline leaves one turn for each byte |
| `ModbusTcp.OnlyResponse` | ur5_ws/src/ur5_workcell/robotiq_3f/robotiq_3f_driver/src/modbus_tcp_client.cpp:209-255 | No stream begins with two different responses to one request |
| `ModbusTcp.ResponsesInOrder` | ur5_ws/src/ur5_workcell/robotiq_3f/robotiq_3f_driver/src/modbus_tcp_client.cpp:209-255 | If the server fills the stream with its responses in order, the k-th transaction returned the k-th response, also after the 16-bit id has gone round |
| `ModbusTcp.Client.ReadStatus` | ur5_ws/src/ur5_workcell/robotiq_3f/robotiq_3f_driver/src/modbus_tcp_client.cpp:257-267 | A status read consumes one frame with sixteen data bytes and returns exactly those; it succeeds if and only if such a frame is next and comes in time |
| `ModbusTcp.Client.WriteCommand` | ur5_ws/src/ur5_workcell/robotiq_3f/robotiq_3f_driver/src/modbus_tcp_client.cpp:269-284 | A command write sends the sixteen bytes to register 0 and succeeds if and only if the echo of address and number is next and comes in time |
| `ModbusTcp.Client.Converse` | ur5_ws/src/ur5_workcell/robotiq_3f/robotiq_3f_driver/src/driver_node.cpp:195-216 | Used as the driver does, closing on the first failure, the results are exactly the responses consumed and nothing is read after the failure |
| `ModbusTcp.ConversationInOrder` | ur5_ws/src/ur5_workcell/robotiq_3f/robotiq_3f_driver/src/modbus_tcp_client.cpp:209-255 | Against a server that answers in order a conversation returns the server's responses |
| `Crc.ComputeBitwise` | ur5_ws/src/ros2_robotiq/robotiq_ft_sensor_hardware/src/rq_sensor_com.cpp:734-784 | The bit-by-bit loop computes the register over the message; for a message of two bytes or more that is the clear register run over the message with its first two bytes complemented |
| `Crc.StartsComplemented` | ur5_ws/src/ros2_robotiq/robotiq_ft_sensor_hardware/src/rq_sensor_com.cpp:736 | For every message of at least two bytes the checksum is the clear register run over the message with its first two bytes complemented |
| `Crc.LeadingZeroDetected` | ur5_ws/src/ros2_robotiq/robotiq_ft_sensor_hardware/src/rq_sensor_com.cpp:736 | A zero byte put in front of any message changes its checksum |
| `Crc.KnownChecksum` | ur5_ws/src/ros2_robotiq/robotiq_ft_sensor_hardware/src/rq_sensor_com.cpp:734-784 | The checksum of the read request 09 03 07 D0 00 03 is 0x0E04 |
| `Crc.RegisterLinear` | ur5_ws/src/ros2_robotiq/robotiq_ft_sensor_hardware/src/rq_sensor_com.cpp:734-784 | The register is linear over xor for messages of any length |
| `Crc.RegisterInjective` | ur5_ws/src/ros2_robotiq/robotiq_ft_sensor_hardware/src/rq_sensor_com.cpp:734-784 | Two different registers stay different over any message |
| `Crc.ResidueZero` | ur5_ws/src/ros2_robotiq/robotiq_ft_sensor_hardware/src/rq_sensor_com.cpp:895-898 | A message followed by two bytes leaves the register clear if and only if they are its checksum, low byte first |
| `Crc.BurstDetected` | ur5_ws/src/ros2_robotiq/robotiq_ft_sensor_hardware/src/rq_sensor_com.cpp:734-784 | Messages of any length that differ by one burst of at most 16 bits have different checksums |
| `Crc.AdjacentBytesDetected` | ur5_ws/src/ros2_robotiq/robotiq_ft_sensor_hardware/src/rq_sensor_com.cpp:734-784 | Messages of equal length that differ only within two adjacent bytes have different checksums |
| `CrcTables.EntryMeaning` | ur5_ws/src/ros2_robotiq/robotiq_driver/src/crc_utils.cpp:45-114 | Every entry of the two tables is the high and low byte of the register after eight shifts of its index |
| `CrcTables.TableStep` | ur5_ws/src/ros2_robotiq/robotiq_driver/src/crc_utils.cpp:122-127 | One step of the table-driven loop is eight bit steps |
| `CrcTables.ComputeByTable` | ur5_ws/src/ros2_robotiq/robotiq_driver/src/crc_utils.cpp:117-130 | For every message the table-driven checksum is the bit-by-bit one with its bytes swapped; for a message of two bytes or more it is that of the clear register over the message with its first two bytes complemented |
| `ModbusRtu.DefaultDriver.CreateReadCommand` | ur5_ws/src/ros2_robotiq/robotiq_driver/src/default_driver.cpp:205-217 | The gripper driver's read request is the sealed read frame |
| `ModbusRtu.DefaultDriver.CreateWriteCommand` | ur5_ws/src/ros2_robotiq/robotiq_driver/src/default_driver.cpp:219-242 | The gripper driver's write request is the sealed write frame of its registers |
| `ModbusRtu.KnownReadRequest` | ur5_ws/src/ros2_robotiq/robotiq_driver/src/default_driver.cpp:205-217 | The bytes of the read request for three registers from 0x07D0 at slave 9, checksum included |
| `ModbusRtu.KnownWriteRequest` | ur5_ws/src/ros2_robotiq/robotiq_driver/src/default_driver.cpp:219-242 | The bytes of the write request for the three registers 0x0900, 0, 0 from 0x03E8 at slave 9, checksum included |
| `ModbusRtu.RequestBuffer.SendReadRequest` | ur5_ws/src/ros2_robotiq/robotiq_ft_sensor_hardware/src/rq_sensor_com.cpp:792-829 | The sensor driver's read request, built in its buffer, is the sealed read frame of the registers rounded up from bytes |
| `ModbusRtu.RequestBuffer.SendWriteRequest` | ur5_ws/src/ros2_robotiq/robotiq_ft_sensor_hardware/src/rq_sensor_com.cpp:931-991 | The sensor driver's write request is the sealed write frame of its payload, padded to whole registers |
| `ModbusRtu.ReadRequestsOfBoth` | ur5_ws/src/ros2_robotiq/robotiq_ft_sensor_hardware/src/rq_sensor_com.cpp:792-829 | What the two read builders return for the same registers at slave address 9 is equal |
| `ModbusRtu.WriteRequestsOfBoth` | ur5_ws/src/ros2_robotiq/robotiq_ft_sensor_hardware/src/rq_sensor_com.cpp:931-991 | What the two write builders return for the same registers at slave address 9 is equal |
| `ModbusRtu.AcceptsIsResidueZero` | ur5_ws/src/ros2_robotiq/robotiq_ft_sensor_hardware/src/rq_sensor_com.cpp:895-898 | The receivers' comparison of two bytes holds if and only if the register over the whole frame is clear |
| `ModbusRtu.SealedIsAccepted` | ur5_ws/src/ros2_robotiq/robotiq_ft_sensor_hardware/src/rq_sensor_com.cpp:1041-1044 | Every frame a builder closes passes the receivers' check |
| `ModbusRtu.CorruptedFrameRejected` | ur5_ws/src/ros2_robotiq/robotiq_ft_sensor_hardware/src/rq_sensor_com.cpp:1041-1044 | No burst of at most 16 bits anywhere in a sealed frame passes the check |
| `SampleParser.NewParser` | ur5_ws/src/ur5_workcell/robotiq_ft/robotiq_ft_streamer/robotiq_ft_streamer/parser.py:9-13 | A parser comes about exactly for limits of at least 64 |
| `SampleParser.Parser.FeedChunk` | ur5_ws/src/ur5_workcell/robotiq_ft/robotiq_ft_streamer/robotiq_ft_streamer/parser.py:19-48 | The loop returns the samples of all whole frames of buffer and chunk, and keeps the trimmed rest; what one frame stands for is said by the next row |
| `ParserPayload.FrameIsRead` | ur5_ws/src/ur5_workcell/robotiq_ft/robotiq_ft_streamer/robotiq_ft_streamer/parser.py:50-61 | Fed to an empty parser, a frame of any fields between commas, with any blanks around them, gives exactly one sample if they are six and each reads as a finite number, and none otherwise; the forces are the numbers of the first three in order and the torques those of the last three; nothing is left over |
| `ParserPayload.EveryPayload` | ur5_ws/src/ur5_workcell/robotiq_ft/robotiq_ft_streamer/robotiq_ft_streamer/parser.py:50-61 | Every payload is made of such fields, so that is said of every frame |
| `ParserPayload.AsciiIsKept` | ur5_ws/src/ur5_workcell/robotiq_ft/robotiq_ft_streamer/robotiq_ft_streamer/parser.py:21-25 | ASCII bytes are the characters of their numbers, in order |
| `ParserPayload.OthersAreDropped` | ur5_ws/src/ur5_workcell/robotiq_ft/robotiq_ft_streamer/robotiq_ft_streamer/parser.py:21-25 | Any other byte is as if it had not been sent |
| `SampleParser.Parser.TrimIncompleteFrame` | ur5_ws/src/ur5_workcell/robotiq_ft/robotiq_ft_streamer/robotiq_ft_streamer/parser.py:67-73 | Trimming keeps a text within the limit, the part from its last parenthesis, or nothing |
| `ParserPayload.TrimMeans` | ur5_ws/src/ur5_workcell/robotiq_ft/robotiq_ft_streamer/robotiq_ft_streamer/parser.py:63-73 | A text over the limit is cut to what begins at its last parenthesis, and dropped if that is still over the limit or there is none |
| `ParserTheorems.BufferIsTail` | ur5_ws/src/ur5_workcell/robotiq_ft/robotiq_ft_streamer/robotiq_ft_streamer/parser.py:19-73 | After every feed the buffer is the end of the stream, within the limit, and holds no whole frame |
| `ParserTheorems.ScanSplit` | ur5_ws/src/ur5_workcell/robotiq_ft/robotiq_ft_streamer/robotiq_ft_streamer/parser.py:19-48 | Scanning a text that goes on is scanning its beginning and then what that left over |
| `ParserTheorems.ChunksDoNotMatter` | ur5_ws/src/ur5_workcell/robotiq_ft/robotiq_ft_streamer/robotiq_ft_streamer/parser.py:19-48 | As long as nothing is trimmed, feeding chunks is the same as scanning the whole stream at once, samples and rest |
| `ParserTheorems.DecodeSplit` | ur5_ws/src/ur5_workcell/robotiq_ft/robotiq_ft_streamer/robotiq_ft_streamer/parser.py:21-25 | Cutting the bytes cuts the text |
| `ParserRecovery.InStep` | ur5_ws/src/ur5_workcell/robotiq_ft/robotiq_ft_streamer/robotiq_ft_streamer/parser.py:19-48 | From a frame boundary, or inside a frame, every well-formed frame is delivered in order, however it is cut |
| `ParserRecovery.SelfStabilises` | ur5_ws/src/ur5_workcell/robotiq_ft/robotiq_ft_streamer/robotiq_ft_streamer/parser.py:19-73 | For any garbage, then well-formed frames within the limit, then anything, and any cutting of this stream into chunks: right after what comes out of the garbage all frames come out in order, except that the first one may be lost or replaced; it is not if no frame is open where the garbage ends; and if nothing follows, nothing is left over |
| `SerialReceiver.Receiver.ListenStream` | ur5_ws/src/ros2_robotiq/robotiq_ft_sensor_hardware/src/rq_sensor_com.cpp:338-466 | One call, on the fixed buffers, does what its specification says: timers, storing with the overflow rule, the last frame found, checked and removed, the rest moved to the front |
| `SerialReceiver.Receiver.Append` | ur5_ws/src/ros2_robotiq/robotiq_ft_sensor_hardware/src/rq_sensor_com.cpp:386-397 | Bytes go behind those kept; when they do not fit the buffer is emptied and the rest dropped, without an access out of range |
| `SerialReceiver.Receiver.SearchBackwards` | ur5_ws/src/ros2_robotiq/robotiq_ft_sensor_hardware/src/rq_sensor_com.cpp:404-454 | The backwards scan handles the last possible frame and no other |
| `SerialReceiver.Receiver.DecodeAt` | ur5_ws/src/ros2_robotiq/robotiq_ft_sensor_hardware/src/rq_sensor_com.cpp:425-438 | The six values are the signed little-endian words of the frame in hundredths and thousandths: twelve bytes that encode six values from -32768 to 32767 are read as those |
| `SerialMeasurement.FrameIsPublished` | ur5_ws/src/ros2_robotiq/robotiq_ft_sensor_hardware/src/rq_sensor_com.cpp:404-454 | Round trip with the sensor: for any six values from -32768 to 32767, each written low byte first behind the header and sealed, a chunk that ends with this frame, whatever else is in the buffer and the chunk, makes the receiver publish exactly v/100 for the three forces and v/1000 for the three torques, and leaves nothing |
| `SerialMeasurement.DamagedIsDropped` | ur5_ws/src/ros2_robotiq/robotiq_ft_sensor_hardware/src/rq_sensor_com.cpp:404-454 | If the checksum of that frame does not fit, it is dropped and no value changes |
| `SerialMeasurement.ReadingsAreZeroed` | ur5_ws/src/ros2_robotiq/robotiq_ft_sensor_hardware/src/rq_sensor_com.cpp:1119-1127 | What is given out after a zero request is the next frame less what the data were when it was made, and without a request less the offset in effect |
| `SerialReceiver.Receiver.Shift` | ur5_ws/src/ros2_robotiq/robotiq_ft_sensor_hardware/src/rq_sensor_com.cpp:456-464 | The bytes behind the frame are moved to the front unchanged |
| `SerialTheorems.BufferHoldsNoFrame` | ur5_ws/src/ros2_robotiq/robotiq_ft_sensor_hardware/src/rq_sensor_com.cpp:372-465 | Whatever comes in, the buffer stays within 1024 bytes and never holds a header with sixteen bytes available |
| `SerialTheorems.GoodStreamIsDecoded` | ur5_ws/src/ros2_robotiq/robotiq_ft_sensor_hardware/src/rq_sensor_com.cpp:385-465 | A stream of good frames read in chunks of at most 1009 bytes: every call leaves exactly the bytes after the last whole frame, and the published values are those of that frame |
| `SerialRecovery.RecoversInStream` | ur5_ws/src/ros2_robotiq/robotiq_ft_sensor_hardware/src/rq_sensor_com.cpp:385-465 | Whatever the buffer holds and whatever bytes come first, in chunks of at most 1009 bytes cut anywhere: once 1025 frames of a good stream have come, the receiver holds exactly the bytes after the last whole frame and has published that frame |
| `SerialRecovery.OverflowAdvances` | ur5_ws/src/ros2_robotiq/robotiq_ft_sensor_hardware/src/rq_sensor_com.cpp:386-397 | Why recovery is bounded: in a good stream, a chunk of at most 1009 bytes that overflows what is kept of a frame ends at a later offset in a frame than those bytes began, or at the end of one, within 64 frames for each offset |
| `SerialTheorems.Watchdogs` | ur5_ws/src/ros2_robotiq/robotiq_ft_sensor_hardware/src/rq_sensor_com.cpp:359-383 | In every reachable state the stream counts as detected if and only if a byte arrived in the last 22 calls, and as valid if and only if a good frame was decoded in the last 42 |
| `SensorState.StopStreamAfterBoot` | ur5_ws/src/ros2_robotiq/robotiq_ft_sensor_hardware/src/rq_sensor_com.cpp:486-512 | Jam signals and calls take turns; once the device is silent the loop ends after exactly twice the calls left, at most 44 iterations |
| `SensorState.CallsLeftReachable` | ur5_ws/src/ros2_robotiq/robotiq_ft_sensor_hardware/src/rq_sensor_com.cpp:359-364 | Whenever a stream is detected there are between 1 and 22 silent calls left |
| `SensorState.StartStream` | ur5_ws/src/ros2_robotiq/robotiq_ft_sensor_hardware/src/rq_sensor_com.cpp:519-543 | The start either reports success or is still waiting: it never reports failure, and it waits on exactly while nothing is heard |
| `SensorState.SilenceIsNeverNoticed` | ur5_ws/src/ros2_robotiq/robotiq_ft_sensor_hardware/src/rq_sensor_com.cpp:527-537 | With a silent device no number of calls ends the start loop, since the retry counter is never advanced |
| `SensorState.Machine.StartStreamPhase` | ur5_ws/src/ros2_robotiq/robotiq_ft_sensor_hardware/src/rq_sensor_state.cpp:192-202 | The state after starting the stream is always the running one |
| `SensorState.Machine.RunPhase` | ur5_ws/src/ros2_robotiq/robotiq_ft_sensor_hardware/src/rq_sensor_state.cpp:210-232 | One call in the running state supervises the stream as specified |
| `SensorState.LeavesRunExactly` | ur5_ws/src/ros2_robotiq/robotiq_ft_sensor_hardware/src/rq_sensor_state.cpp:210-232 | The running state is left if and only if there were as many invalid calls in a row as retries, but at least one; until then the retry counter is their number |
| `Zeroing.Manager.RequestZero` | ur5_ws/src/ur5_workcell/robotiq_ft/robotiq_ft_streamer/robotiq_ft_streamer/zeroing.py:42-53 | A request for at least one sample starts a new generation; others are refused and change nothing |
| `Zeroing.Manager.ProcessSample` | ur5_ws/src/ur5_workcell/robotiq_ft/robotiq_ft_streamer/robotiq_ft_streamer/zeroing.py:63-90 | A sample is corrected, counted, or completes the collection, as specified |
| `Zeroing.Wait` | ur5_ws/src/ur5_workcell/robotiq_ft/robotiq_ft_streamer/robotiq_ft_streamer/zeroing.py:92-108 | A wait ends at the first look that decides it and only ever returns its own generation |
| `ZeroingOutcomes.BiasIsMean` | ur5_ws/src/ur5_workcell/robotiq_ft/robotiq_ft_streamer/robotiq_ft_streamer/zeroing.py:63-90 | From any state: with as many samples as were requested the bias is their mean in each of the six components and none was emitted; the sample after them is emitted less that mean, component by component |
| `ZeroingOutcomes.CallerIsAnswered` | ur5_ws/src/ur5_workcell/robotiq_ft/robotiq_ft_streamer/robotiq_ft_streamer/zeroing.py:92-108 | The caller of a request sleeps while samples are missing, gives up at its deadline, and returns its own result as soon as they are there |
| `ZeroingOutcomes.ReconnectStartsOver` | ur5_ws/src/ur5_workcell/robotiq_ft/robotiq_ft_streamer/robotiq_ft_streamer/zeroing.py:55-61 | A reconnect takes a collection back to its beginning, whatever had come |
| `Streamer.BiasIsWellFounded` | ur5_ws/src/ur5_workcell/robotiq_ft/robotiq_ft_streamer/robotiq_ft_streamer/zeroing.py:55-90 | In every run each completed bias is the mean of exactly the requested number of consecutive samples, all processed after the request, all from one connection and none of them emitted; the bias in use is the last one completed |
| `Streamer.EmittedLessBias` | ur5_ws/src/ur5_workcell/robotiq_ft/robotiq_ft_streamer/robotiq_ft_streamer/node.py:121-142 | In every run a sample that is emitted is emitted less the bias in effect when it was processed |
| `Streamer.NeverBoth` | ur5_ws/src/ur5_workcell/robotiq_ft/robotiq_ft_streamer/robotiq_ft_streamer/zeroing.py:68-90 | In every run no sample is both emitted and used for a bias |
| `StreamerRuns.NodeIsRun` | ur5_ws/src/ur5_workcell/robotiq_ft/robotiq_ft_streamer/robotiq_ft_streamer/client.py:34-74 | Every run of the node, in which the client thread connects, receives chunks and hands samples on one at a time between the service calls, is a run of the step system of the three theorems above |
| `StreamerRuns.BiasFromOneConnection` | ur5_ws/src/ur5_workcell/robotiq_ft/robotiq_ft_streamer/robotiq_ft_streamer/client.py:34-74 | In every run of the node each completed bias is the mean of exactly the requested number of consecutive samples among those that the parser makes of the chunks of one TCP connection |
| `StreamerRuns.ConnectionsAreRun` | ur5_ws/src/ur5_workcell/robotiq_ft/robotiq_ft_streamer/robotiq_ft_streamer/client.py:34-60 | Connections handled one after the other without interruption leave the manager as a run of that system does |
| `StreamerCalls.ReplyIsTrueExactly` | ur5_ws/src/ur5_workcell/robotiq_ft/robotiq_ft_streamer/robotiq_ft_streamer/node.py:175-193 | A whole service call in any run without another request, shutdown and cancellations included: a success reports the call's own mean, which is the bias; a wait that gives up with the node open finds the bias retained; and after the cancellation the bias is retained if and only if the manager shows no result of the call |
| `StreamerCalls.CallResult` | ur5_ws/src/ur5_workcell/robotiq_ft/robotiq_ft_streamer/robotiq_ft_streamer/zeroing.py:42-114 | A whole call in every run, other requests included: at most one result of its own is added, as the first after those there were, and all others are of later calls |
| `Streamer.TimeoutRace` | ur5_ws/src/ur5_workcell/robotiq_ft/robotiq_ft_streamer/robotiq_ft_streamer/node.py:175-189 | The race in detail: with samples and reconnects between a wait's timeout and its cancellation, the previous bias is retained if and only if the cancellation still finds the collection active; otherwise its mean has become the bias |
| `Streamer.FailedCallChangesBias` | ur5_ws/src/ur5_workcell/robotiq_ft/robotiq_ft_streamer/robotiq_ft_streamer/node.py:181-189 | A concrete run in which the service reports that the offset was retained although it has changed |
| `StreamerNode.Client.ReadConnection` | ur5_ws/src/ur5_workcell/robotiq_ft/robotiq_ft_streamer/robotiq_ft_streamer/client.py:39-74 | On every connection the parser is reset and a collection restarted before anything is read, and then every sample of every chunk reaches the manager in order |
| `StreamerNode.Client.Run` | ur5_ws/src/ur5_workcell/robotiq_ft/robotiq_ft_streamer/robotiq_ft_streamer/client.py:34-60 | The loop over connections restarts an active collection at each and hands on the samples of each, parsed from its beginning |
| `StreamerNode.Publisher.PublishDue` | ur5_ws/src/ur5_workcell/robotiq_ft/robotiq_ft_streamer/robotiq_ft_streamer/node.py:144-155 | The publisher lets a message through as specified; at rate 0 always |
| `StreamerNode.RateIsBounded` | ur5_ws/src/ur5_workcell/robotiq_ft/robotiq_ft_streamer/robotiq_ft_streamer/node.py:144-155 | However the calls come, k messages further on at least k - 1 periods have passed |
| `StreamerNode.NotStarved` | ur5_ws/src/ur5_workcell/robotiq_ft/robotiq_ft_streamer/robotiq_ft_streamer/node.py:144-155 | A call at least one period after the last message, or not before the first time if there was none, publishes |
| `Piecewise.NewMap` | ur5_ws/src/ur5_workcell/robotiq_3f/robotiq_3f_state_publisher/src/joint_mapping.cpp:13-29 | A table is accepted exactly if its sizes agree and are at least two, its entries are finite and its inputs strictly increase |
| `Piecewise.Evaluate` | ur5_ws/src/ur5_workcell/robotiq_3f/robotiq_3f_state_publisher/src/joint_mapping.cpp:31-48 | Binary search gives the value of the map |
| `Piecewise.UpperBound` | ur5_ws/src/ur5_workcell/robotiq_3f/robotiq_3f_state_publisher/src/joint_mapping.cpp:40 | The search finds the first breakpoint above the input |
| `Piecewise.Interpolate` | ur5_ws/src/ur5_workcell/simulation/ur5_workcell_sim/scripts/robotiq_3f_sim_backend.py:13-25 | The linear scan gives the same value, for every table, and never reaches its error line |
| `Piecewise.OnEverySegment` | ur5_ws/src/ur5_workcell/robotiq_3f/robotiq_3f_state_publisher/src/joint_mapping.cpp:31-48 | The value lies on the line of every segment the input belongs to, so the two searches agree at breakpoints although they pick different segments |
| `Piecewise.Lipschitz` | ur5_ws/src/ur5_workcell/robotiq_3f/robotiq_3f_state_publisher/src/joint_mapping.cpp:31-48 | A map with slopes bounded by L is L-Lipschitz over all reals, clamped ends included |
| `Piecewise.Monotone` | ur5_ws/src/ur5_workcell/robotiq_3f/robotiq_3f_state_publisher/src/joint_mapping.cpp:31-48 | A map whose outputs rise is monotone over all reals |
| `Piecewise.WithinOutputs` | ur5_ws/src/ur5_workcell/robotiq_3f/robotiq_3f_state_publisher/src/joint_mapping.cpp:31-48 | No value is outside the range of the outputs |
| `JointMapping.MapJoints` | ur5_ws/src/ur5_workcell/robotiq_3f/robotiq_3f_state_publisher/src/joint_mapping.cpp:77-109 | The state publisher computes the eleven joints of its four positions |
| `JointMapping.JointTargets` | ur5_ws/src/ur5_workcell/simulation/ur5_workcell_sim/scripts/robotiq_3f_sim_backend.py:233-246 | The simulator computes the same eleven joints of its four axes |
| `JointMapping.AllJoints` | ur5_ws/src/ur5_workcell/robotiq_3f/robotiq_3f_state_publisher/src/joint_mapping.cpp:95-108 | The eleven joints in their order: proximal, middle and distal of A, scissor, the three of B, opposite scissor, the three of C, from the pinch tables exactly in mode 1 |
| `JointMapping.ScissorsOppose` | ur5_ws/src/ur5_workcell/robotiq_3f/robotiq_3f_state_publisher/src/joint_mapping.cpp:102-108 | The two outer fingers turn by opposite scissor angles |
| `JointMapping.PublisherFollowsSimulator` | ur5_ws/src/ur5_workcell/simulation/ur5_workcell_sim/scripts/robotiq_3f_sim_backend.py:233-261 | With the same tables, joints published from a simulator status differ from the simulator's own by at most the steepest slope times the rounding of the axis, wherever the axes are: half a step within the raw range, nothing at whole positions |
| `JointMapping.PublisherFollowsRun` | ur5_ws/src/ur5_workcell/simulation/ur5_workcell_sim/scripts/robotiq_3f_sim_backend.py:207-261 | In every run, with a configuration that keeps the axes in range, the joints made of the status of a timer callback are within half the steepest slope of the targets the same callback sends |
| `Reactivation.ReturnMeansReactivated` | ur5_ws/src/ros2_robotiq/robotiq_controllers/src/robotiq_activation_controller.cpp:105-118 | With one call outstanding at a time, in every interleaving and however often the driver throws, a call that returns means that the gripper was deactivated and then activated since the call began |
| `Reactivation.ReturnsTrue` | ur5_ws/src/ros2_robotiq/robotiq_driver/src/hardware_interface.cpp:314-337 | In every run, overlapping calls included, a call that returns reports success |
| `Reactivation.LoneCallCanReturn` | ur5_ws/src/ros2_robotiq/robotiq_controllers/src/robotiq_activation_controller.cpp:105-118 | However the run before it went, a call that begins alone can return success after exactly one deactivation and activation |
| `Reactivation.ServedExactly` | ur5_ws/src/ros2_robotiq/robotiq_driver/src/hardware_interface.cpp:314-337 | If calls could overlap: a call is answered by a reactivation of its own in every continuation, other calls included, if and only if when it begins the communication thread is not past the deactivation and no answer waits to be copied. Calls cannot overlap in the program, because the service is in the default callback group of its node (robotiq_activation_controller.cpp, lines 72-76); `OverlappingCallsShareAnAnswer` is an example of what that prevents |
| `Reactivation.AloneIsUnspoilt` | ur5_ws/src/ros2_robotiq/robotiq_controllers/src/robotiq_activation_controller.cpp:105-118 | Where calls do not overlap, that condition holds whenever one begins |
| `Reactivation.Hardware.Read` | ur5_ws/src/ros2_robotiq/robotiq_driver/src/hardware_interface.cpp:275-294 | The control loop passes the command on and brings an answer back: its steps in a row |
| `Reactivation.Hardware.Reactivate` | ur5_ws/src/ros2_robotiq/robotiq_driver/src/hardware_interface.cpp:314-337 | One round of the communication thread: a driver call that throws leaves the request standing |
| `Reactivation.Hardware.ReactivateGripper` | ur5_ws/src/ros2_robotiq/robotiq_controllers/src/robotiq_activation_controller.cpp:105-118 | The service marks the response as waiting, sets the command and returns the first response that is not the mark |

## Left out

- ControllerTheorems.ActivationIsReal: for runs with fewer than 2^64 commands and connections; command ids and connection ids are 64-bit counters, and `ControllerWrap.ZeroIdAccepted` and `ControllerWrap.OldAnswerAccepted` show what happens from there on. The same bound on commands stands in the other theorems of that module.
- StreamerCalls.ReplyIsTrueExactly: for runs in which no other request is made during the call, as in the node, whose service is in the default callback group and is run, like the shutdown, by one thread; `StreamerCalls.CallResult` is about all runs. The gap of `Streamer.TimeoutRace` holds samples and reconnects only, for the same reason.
- Reactivation.ReturnMeansReactivated: for runs in which no call begins while another is outstanding, which the service's callback group guarantees; `Reactivation.ServedExactly` is about all others.
- SerialTheorems.GoodStreamIsDecoded: for streams whose header bytes occur only where frames begin; a stream with a header pair inside a frame can lose that frame. The same holds for `SerialRecovery.RecoversInStream`.
- ControllerNode.Node.PublishCommand: the three sections are run without interruption here; their interleaving is in the step system.
- ROS itself: nodes, executors, publishers, parameters, diagnostics and the action server; the callbacks are steps over messages in any order.
- Sockets, serial ports, polling and device discovery: replaced by bytes that arrive and leave in pieces of any size, or fail.
- Clocks and sleeps: a choice in each step (stale, late), a number that only grows, or a sequence of call times.
- Floating point: real numbers; a value that is not finite exists only in table entries and parsed fields. Reading a number from text is an arbitrary partial function; the blanks stripped around it are those of ASCII, and beyond ASCII only a text that does not come from bytes has any.
- Reconnect delays, timeouts as durations, log messages and diagnostic texts.
- The sensor driver's replies, its device information registers and the statistics counter of received frames.
- The two-finger gripper's status decoding, its position commands and its retries.
- Concurrency inside one reading of a status or one publication, which the source guards with a lock or does on one thread.
- Launch files, descriptions, the calibration programs and other configuration.
