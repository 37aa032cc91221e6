/**
 * The Modbus driver node as a step system: the worker thread and the command callback, one access to
 * the shared fields at a time.
 */
module Driver {
  import opened Backend
  import opened Messages
  import opened ProcessImage
  import opened Wrappers

  /** A command on its way to the gripper, with the number of the acceptance it comes from. */
  datatype Ticket = Ticket(command: Command, source: nat)

  /** Where the worker thread is. */
  datatype Pc =
    | Loop
    | ResetReady
    | ResetLast
    | Take
    | Write(ticket: Ticket)
    | StoreLast(id: nat)
    | Read
    | Publish(device: Device)
    | SetReady
    | Closing
    | MarkReady
    | MarkLast
    | MarkPending
    | MarkPublish
    | Quit
    | Stopped

  /** A callback that has passed the tests: the connection and the number of pending resets at that time. */
  datatype Callback = Callback(command: Command, connection: nat, before: nat)

  /** A command stored as pending: when it was tested and when it was stored, counted in pending resets. */
  datatype Acceptance = Acceptance(command: Command, connection: nat, before: nat, after: nat)

  /** A write in the log and the acceptance it came from. */
  datatype Written = Written(source: nat, at: nat)

  datatype Config = Config(configured: bool, allowRelease: bool)

  datatype State = State(
    ready: bool,
    connections: nat,
    lastCommand: nat,
    pending: Option<Ticket>,
    open: bool,
    pc: Pc,
    callback: Option<Callback>,
    resets: nat,
    accepted: seq<Acceptance>,
    written: seq<Written>,
    view: View)

  const INITIAL := State(false, 0, 0, None, false, Loop, None, 0, [], [], START)

  // ---------------------------------------------------------------- the command callback

  /** The tests of the callback that look at the command alone. */
  predicate Acceptable(config: Config, c: Command) {
    && c.request.mode <= MODE_SCISSOR
    && c.id != 0
    && (c.request.automaticRelease ==> config.allowRelease)
  }

  /** The callback up to the lock: the command is dropped, or its tests are passed. */
  function Test(config: Config, s: State, c: Command): State {
    if Acceptable(config, c) && s.ready then s.(callback := Some(Callback(c, s.connections, s.resets))) else s
  }

  /** The callback under the lock. */
  function Store(s: State): State {
    if s.callback.None? then s
    else
      var b := s.callback.value;
      s.(callback := None,
         pending := Some(Ticket(b.command, |s.accepted|)),
         accepted := s.accepted + [Acceptance(b.command, b.connection, b.before, s.resets)])
  }

  // ---------------------------------------------------------------- the worker

  /** What the world decides in a step: whether a transaction works, what a read returns, a stop request. */
  datatype Choice = Choice(ok: bool, device: Device, stop: bool)

  function Logged(s: State, e: Event): State {
    s.(view := s.view.(log := s.view.log + [e]))
  }

  function Published(s: State, connected: bool, device: Device): State {
    s.(view := s.view.(statuses := s.view.statuses + {Status(connected, s.connections % WRAP, s.lastCommand, device)}))
  }

  /** The head of the loop: stop, go on with the open connection, or try to connect. */
  function AtLoop(config: Config, s: State, ch: Choice): State {
    if ch.stop then (if s.open then Logged(s, Closed(s.connections)) else s).(open := false, pc := Quit)
    else if s.open then s.(pc := Take)
    else if config.configured && ch.ok then
      Logged(s, Opened(s.connections + 1)).(connections := s.connections + 1, open := true, pc := ResetReady)
    else s.(pc := MarkReady)
  }

  /** `pack_command` and `write_command`; a mode that does not pack throws before anything is sent. */
  function AtWrite(s: State, ticket: Ticket, ch: Choice): State {
    var c := ticket.command;
    if !Packable(c.request) then s.(pc := Closing)
    else
      var u := s.(written := s.written + [Written(ticket.source, |s.view.log|)]);
      if ch.ok then Logged(u, Applied(s.connections, c)).(pc := StoreLast(c.id))
      else Logged(u, Attempted(s.connections, c)).(pc := Closing)
  }

  /** One step of the worker thread. */
  function Work(config: Config, s: State, ch: Choice): State {
    match s.pc
    case Loop => AtLoop(config, s, ch)
    case ResetReady => s.(ready := false, pc := ResetLast)
    case ResetLast => s.(lastCommand := 0, pc := Take)
    case Take => if s.ready && s.pending.Some? then s.(pending := None, pc := Write(s.pending.value)) else s.(pc := Read)
    case Write(ticket) => AtWrite(s, ticket, ch)
    case StoreLast(id) => s.(lastCommand := id, pc := Read)
    case Read => if ch.ok then Logged(s, Sampled(s.connections, ch.device)).(pc := Publish(ch.device)) else s.(pc := Closing)
    case Publish(device) => Published(s, true, device).(pc := SetReady)
    case SetReady => s.(ready := true, pc := Loop)
    case Closing => Logged(s, Closed(s.connections)).(open := false, pc := MarkReady)
    case MarkReady => s.(ready := false, pc := MarkLast)
    case MarkLast => s.(lastCommand := 0, pc := MarkPending)
    case MarkPending => s.(pending := None, resets := s.resets + 1, pc := MarkPublish)
    case MarkPublish => Published(s, false, ZERO_DEVICE).(pc := Loop)
    case Quit => s.(ready := false, pc := Stopped)
    case Stopped => s
  }

  // ---------------------------------------------------------------- runs

  datatype Label =
    | TestCommand(command: Command)
    | StoreCommand
    | Receive(command: Command)
    | Worker(choice: Choice)

  /**
   * One step. The callbacks of the one subscription run one after another, so a test waits for the
   * store before it. `Receive` is the whole callback as one step.
   */
  function Step(config: Config, s: State, l: Label): State {
    match l
    case TestCommand(c) => if s.callback.None? then Test(config, s, c) else s
    case StoreCommand => Store(s)
    case Receive(c) => if s.callback.None? then Store(Test(config, s, c)) else s
    case Worker(ch) => Work(config, s, ch)
  }

  function After(config: Config, run: seq<Label>): State {
    if run == [] then INITIAL else Step(config, After(config, run[..|run| - 1]), run[|run| - 1])
  }

  predicate Brings(l: Label, c: Command) {
    (l.TestCommand? || l.Receive?) && l.command == c
  }

  /** The callback runs as one step throughout. */
  predicate Atomic(run: seq<Label>) {
    forall k :: 0 <= k < |run| ==> !run[k].TestCommand?
  }
}
