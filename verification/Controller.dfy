/**
 * The controller node as a step system: any number of service and action threads over the shared
 * fields, one atomic section of the source at a time, against any backend that keeps the contract.
 */
module Controller {
  import opened Backend
  import opened Messages
  import opened Wrappers

  // ---------------------------------------------------------------- operations and their commands

  /** What the two motion actions ask for; GripperCommand is the Move with the pinch preset. */
  datatype Goal = Goal(mode: uint8, individualFingers: bool, individualScissor: bool,
                       a: Axis, b: Axis, c: Axis, scissor: Axis)

  datatype Operation = Activate(mode: uint8) | Deactivate | Motion(goal: Goal) | Stop

  function ActivationRequest(mode: uint8): Request {
    ZERO_REQUEST.(activate := true, mode := mode)
  }

  function MotionRequest(g: Goal): Request {
    Request(true, g.mode, true, false, false, g.individualFingers, g.individualScissor, g.a, g.b, g.c, g.scissor)
  }

  /** The goal GripperCommand runs: the same raw request on the three fingers, the scissor left at position 0. */
  function GripperGoal(position: uint8, speed: uint8, force: uint8): Goal {
    var finger := Axis(position, speed, force);
    Goal(MODE_PINCH, false, false, finger, finger, finger, Axis(0, speed, force))
  }

  function FirstRequest(op: Operation): Request {
    if op.Motion? then MotionRequest(op.goal) else ZERO_REQUEST
  }

  predicate Faulted(d: Device) {
    d.fault >= FIRST_FAULT
  }

  /** The gripper reports the goal as its request. */
  predicate Requested(g: Goal, d: Device) {
    && d.mode == g.mode && d.goTo && d.initialization == INITIALIZATION_READY
    && d.a.requested == g.a.position
    && (g.individualFingers ==> d.b.requested == g.b.position && d.c.requested == g.c.position)
    && (g.individualScissor ==> d.scissor.requested == g.scissor.position)
  }

  predicate IsReset(d: Device) {
    !d.activated && d.initialization == INITIALIZATION_RESET
  }

  predicate IsReady(d: Device, mode: uint8) {
    d.activated && d.initialization == INITIALIZATION_READY && d.mode == mode
  }

  /** What the operation waits for after its exchange number `stage`. */
  predicate Awaited(op: Operation, stage: nat, d: Device) {
    match op
    case Activate(mode) => if stage == 0 then IsReset(d) else IsReady(d, mode)
    case Deactivate => !d.activated
    case Motion(g) => Requested(g, d) && (d.motion != MOTION_MOVING || Faulted(d))
    case Stop => true
  }

  // ---------------------------------------------------------------- the state

  datatype Pc = Begin | Snapshot | Copy | Allocate | Store | Send | Wait | Release | Done

  datatype Outcome = Undecided | Succeeded | Failed

  /** A command, how long the device log was when its id was taken, and the status that answered it. */
  datatype Exchange = Exchange(command: Command, begun: nat, reply: Status)

  datatype Thread = Thread(op: Operation, pc: Pc, outcome: Outcome, seen: Status, connection: nat,
                           command: Command, begun: nat, exchanges: seq<Exchange>, stopping: bool)

  datatype Publication = Publication(thread: nat, command: Command)

  datatype System = System(
    busy: bool,
    current: Option<Status>,
    lastCommand: Option<Command>,
    issued: nat,
    sent: set<Command>,
    published: seq<Publication>,
    threads: map<nat, Thread>,
    view: View)

  const NO_STATUS := Status(false, 0, 0, ZERO_DEVICE)

  function NewThread(op: Operation): Thread {
    Thread(op, Begin, Undecided, NO_STATUS, 0, Command(0, ZERO_REQUEST), 0, [], false)
  }

  const INITIAL := System(false, None, None, 0, {}, [], map[], START)

  // ---------------------------------------------------------------- the steps

  /** What time and callers decide in a step: shutdown, cancellation, age of the status, the deadline. */
  datatype Choice = Choice(shutdown: bool, cancelled: bool, stale: bool, late: bool)

  function Finish(t: Thread, outcome: Outcome): Thread {
    t.(pc := if t.op.Stop? then Done else Release, outcome := outcome)
  }

  /** Takes the status an operation starts from, or gives up. */
  function TakeSnapshot(t: Thread, current: Option<Status>, stale: bool): Thread {
    if current.None? || !current.value.connected || stale then Finish(t, Failed)
    else
      var t := t.(seen := current.value, connection := current.value.connection);
      var d := current.value.device;
      if t.op.Motion? && (!d.activated || d.initialization != INITIALIZATION_READY) then Finish(t, Failed)
      else if t.op.Stop? then t.(pc := Copy)
      else t.(pc := Allocate, command := Command(0, FirstRequest(t.op)))
  }

  /** What `stop` repeats: the last command stored, or the mode and activation it sees. */
  function StopRequest(last: Option<Command>, seen: Status): Request {
    var r := if last.Some? then last.value.request
             else ZERO_REQUEST.(activate := seen.device.activated, mode := seen.device.mode);
    r.(goTo := false, automaticRelease := false)
  }

  /** A wait that returned false; a motion first publishes its command again without the go-to bit. */
  function GiveUp(t: Thread): Thread {
    if t.op.Motion? && t.seen.connected && t.seen.connection == t.connection then
      t.(pc := Allocate, outcome := Failed, stopping := true,
         command := Command(0, t.command.request.(goTo := false)))
    else Finish(t, Failed)
  }

  /** A wait that returned true. */
  function Answer(t: Thread): Thread {
    var u := t.(exchanges := t.exchanges + [Exchange(t.command, t.begun, t.seen)]);
    if t.op.Activate? && |t.exchanges| == 0 then
      u.(pc := Allocate, command := Command(0, ActivationRequest(t.op.mode)))
    else if t.op.Motion? && Faulted(t.seen.device) then Finish(u, Failed)
    else Finish(u, Succeeded)
  }

  /** One iteration of the wait loop, made while the status lock is held. */
  function Poll(t: Thread, current: Option<Status>, ch: Choice): Thread {
    if ch.shutdown then GiveUp(t)
    else if t.op.Motion? && ch.cancelled then GiveUp(t)
    else if current.Some? then
      var s := current.value;
      var u := t.(seen := s);
      if !s.connected then GiveUp(u)
      else if s.connection != t.connection then GiveUp(u)
      else if ch.stale then GiveUp(u)
      else if s.lastCommand == t.command.id && Awaited(t.op, |t.exchanges|, s.device) then Answer(u)
      else if ch.late then GiveUp(u)
      else u
    else if ch.late then GiveUp(t)
    else t
  }

  /** Whether `begin_operation` or the goal handler lets the operation in. */
  predicate Enters(busy: bool, t: Thread) {
    && t.pc == Begin && !t.op.Stop?
    && (t.op.Motion? ==> t.op.goal.mode <= MODE_SCISSOR)
    && !busy
  }

  function NextId(issued: nat): nat {
    (issued + 1) % WRAP
  }

  /** The next atomic section of a thread: what it does to its own variables ... */
  function Advance(s: System, t: Thread, ch: Choice): Thread {
    match t.pc
    case Begin => if t.op.Stop? || Enters(s.busy, t) then t.(pc := Snapshot) else t.(pc := Done, outcome := Failed)
    case Snapshot => TakeSnapshot(t, s.current, ch.stale)
    case Copy => t.(pc := Allocate, command := Command(0, StopRequest(s.lastCommand, t.seen)))
    case Allocate => t.(pc := Store, command := t.command.(id := NextId(s.issued)), begun := |s.view.log|)
    case Store => t.(pc := Send)
    case Send =>
      if t.op.Stop? then Finish(t, Succeeded) else if t.stopping then Finish(t, Failed) else t.(pc := Wait)
    case Wait => Poll(t, s.current, ch)
    case Release => t.(pc := Done)
    case Done => t
  }

  /** ... and to the fields the threads share. */
  function Effect(s: System, id: nat, t: Thread): System {
    match t.pc
    case Begin => if Enters(s.busy, t) then s.(busy := true) else s
    case Allocate => s.(issued := s.issued + 1)
    case Store => s.(lastCommand := Some(t.command))
    case Send => s.(sent := s.sent + {t.command}, published := s.published + [Publication(id, t.command)])
    case Release => s.(busy := false)
    case _ => s
  }

  function RunThread(s: System, id: nat, ch: Choice): System
    requires id in s.threads
  {
    var t := s.threads[id];
    Effect(s, id, t).(threads := s.threads[id := Advance(s, t, ch)])
  }

  datatype Label =
    | Start(id: nat, op: Operation)
    | Run(id: nat, choice: Choice)
    | Deliver(status: Status)
    | Work(view: View)

  /** One step; a label that is not possible changes nothing. */
  ghost function Step(s: System, l: Label): System {
    match l
    case Start(id, op) => if id in s.threads then s else s.(threads := s.threads[id := NewThread(op)])
    case Run(id, ch) => if id in s.threads then RunThread(s, id, ch) else s
    case Deliver(status) => if status in s.view.statuses then s.(current := Some(status)) else s
    case Work(view) => if BackendStep(s.view, s.sent, view) then s.(view := view) else s
  }

  /** The state after a run. */
  ghost function After(run: seq<Label>): System {
    if run == [] then INITIAL else Step(After(run[..|run| - 1]), run[|run| - 1])
  }
}
