/** The simulator as a backend: what it publishes is what the contract says, and its reports are honest. */
module SimRuns {
  import opened Backend
  import opened Messages
  import opened Rounding
  import opened SimBackend

  datatype System = System(sim: State, view: View)

  datatype Label = Receive(command: Command) | Tick(dt: real)

  const BEGIN := System(SimBackend.INITIAL, View([Opened(1)], {}))

  /** One callback of the node's single thread. */
  function Step(config: Config, x: System, l: Label): System {
    match l
    case Receive(c) =>
      var sim := SimBackend.Receive(config, x.sim, c);
      if Heeded(c) then System(sim, x.view.(log := x.view.log + [Applied(1, c)])) else System(sim, x.view)
    case Tick(dt) =>
      var sim := Update(config, x.sim, dt);
      System(sim, View(x.view.log + [Sampled(1, sim.device)], x.view.statuses + {StatusOf(sim)}))
  }

  function After(config: Config, run: seq<Label>): System {
    if run == [] then BEGIN else Step(config, After(config, run[..|run| - 1]), run[|run| - 1])
  }

  predicate Brings(l: Label, c: Command) {
    l.Receive? && l.command == c
  }

  // ---------------------------------------------------------------- honest reports

  predicate Resting(d: Device) {
    d.activated && d.motion == MOTION_REACHED
  }

  /** A motion reported as finished has taken every axis to its target; finger A's target is its request. */
  predicate Honest(s: State) {
    && (s.device.activated <==> s.device.initialization == INITIALIZATION_READY)
    && (Resting(s.device) ==> s.actual == s.target)
    && (Driven(s) && s.device.mode != MODE_SCISSOR ==> s.target[0] == s.device.a.requested as real)
  }

  /** What a published status shows of that. */
  predicate ShowsArrival(d: Device) {
    d.initialization == INITIALIZATION_READY && d.motion == MOTION_REACHED && d.goTo && d.mode != MODE_SCISSOR ==> d.a.actual == d.a.requested
  }

  lemma ReceiveHonest(config: Config, s: State, c: Command)
    requires Honest(s)
    ensures Honest(SimBackend.Receive(config, s, c))
  {
  }

  lemma NotMovingArrived(actual: Axes, target: Axes, steps: Axes)
    requires !AnyMoving(actual, target, steps)
    ensures MovedAll(actual, target, steps) == target
  {
    forall i | 0 <= i < AXES
      ensures MovedAll(actual, target, steps)[i] == target[i]
    {
      assert !StillMoving(actual[i], target[i], steps[i]);
    }
  }

  lemma AdvanceHonest(config: Config, s: State, dt: real)
    requires Honest(s)
    ensures Honest(Advance(config, s, dt))
  {
    var steps := Steps(config, s.speeds, dt);
    if Driven(s) && !AnyMoving(s.actual, s.target, steps) {
      NotMovingArrived(s.actual, s.target, steps);
    }
  }

  lemma ToRawExact(n: uint8)
    ensures ToRaw(n as real) == n
  {
    RoundEvenInteger(n);
  }

  lemma UpdateHonest(config: Config, s: State, dt: real)
    requires Honest(s)
    ensures Honest(Update(config, s, dt)) && ShowsArrival(Update(config, s, dt).device)
  {
    AdvanceHonest(config, s, dt);
    var m := Advance(config, s, dt);
    ToRawExact(m.device.a.requested);
  }

  // ---------------------------------------------------------------- the simulator is a backend

  /** The one connection was opened at the start and stays. */
  ghost predicate OneConnection(log: Log) {
    && log != [] && log[0] == Opened(1)
    && forall k :: 1 <= k < |log| ==> log[k].connection == 1 && !log[k].Opened? && !log[k].Closed?
  }

  ghost predicate Invariant(x: System, sent: set<Command>) {
    && OneConnection(x.view.log)
    && Tracks(x.view.log, x.sim.lastCommand, 1)
    && Contract(x.view, sent)
    && Honest(x.sim)
    && (forall s :: s in x.view.statuses ==> s.connected && ShowsArrival(s.device))
    && (forall k :: 0 <= k < |x.view.log| && x.view.log[k].Sampled? ==> ShowsArrival(x.view.log[k].device))
  }

  lemma BeginInvariant(sent: set<Command>)
    ensures Invariant(BEGIN, sent)
  {
  }

  lemma OrderedOne(log: Log, e: Event)
    requires OneConnection(log) && e.connection == 1 && !e.Opened? && !e.Closed?
    ensures OneConnection(log + [e]) && Ordered(log + [e])
  {
    var log' := log + [e];
    forall i, j | 0 <= i < j < |log'|
      ensures Follows(log'[i], log'[j])
    {
      assert log'[j].connection == 1 && !log'[j].Opened?;
      assert i == 0 ==> log'[i] == Opened(1);
    }
  }

  lemma ReceiveInvariant(config: Config, x: System, sent: set<Command>, c: Command)
    requires Invariant(x, sent) && c in sent
    ensures Invariant(Step(config, x, Receive(c)), sent)
  {
    ReceiveHonest(config, x.sim, c);
    if Heeded(c) {
      OrderedOne(x.view.log, Applied(1, c));
      ContractAppended(x.view, sent, Applied(1, c));
      TracksWrite(x.view.log, c, 1);
    }
  }

  lemma UpdateKeepsLast(config: Config, s: State, dt: real)
    ensures Update(config, s, dt).lastCommand == s.lastCommand
  {
  }

  lemma TickInvariant(config: Config, x: System, sent: set<Command>, dt: real)
    requires Invariant(x, sent)
    ensures Invariant(Step(config, x, Tick(dt)), sent)
  {
    var device := Update(config, x.sim, dt).device;
    UpdateHonest(config, x.sim, dt);
    UpdateKeepsLast(config, x.sim, dt);
    OrderedOne(x.view.log, Sampled(1, device));
    ContractAppended(x.view, sent, Sampled(1, device));
    TracksRead(x.view.log, x.sim.lastCommand, 1, device);
    ReadIsGenuine(x.view.log + [Sampled(1, device)], x.sim.lastCommand, 1, device);
  }

  /** Every callback of the simulator, given commands that were sent, is a step the contract allows. */
  lemma SimIsBackend(config: Config, x: System, sent: set<Command>, l: Label)
    requires Invariant(x, sent)
    requires forall c :: Brings(l, c) ==> c in sent
    ensures Invariant(Step(config, x, l), sent)
    ensures BackendStep(x.view, sent, Step(config, x, l).view)
  {
    match l
    case Receive(c) => assert Brings(l, c); ReceiveInvariant(config, x, sent, c);
    case Tick(dt) => TickInvariant(config, x, sent, dt);
  }

  ghost predicate Fed(run: seq<Label>, sent: set<Command>) {
    forall k, c :: 0 <= k < |run| && Brings(run[k], c) ==> c in sent
  }

  lemma {:induction false} AfterInvariant(config: Config, run: seq<Label>, sent: set<Command>)
    requires Fed(run, sent)
    ensures Invariant(After(config, run), sent)
  {
    if run != [] {
      AfterInvariant(config, run[..|run| - 1], sent);
      SimIsBackend(config, After(config, run[..|run| - 1]), sent, run[|run| - 1]);
    } else {
      BeginInvariant(sent);
    }
  }

  function Commands(run: seq<Label>): set<Command> {
    set l | l in run && l.Receive? :: l.command
  }

  /** In every run, "activated and reached" means every axis is where it was sent, and so says the status. */
  lemma ReachedMeansThere(config: Config, run: seq<Label>)
    ensures Resting(After(config, run).sim.device) ==> After(config, run).sim.actual == After(config, run).sim.target
    ensures forall s :: s in After(config, run).view.statuses ==> ShowsArrival(s.device)
  {
    forall k, c | 0 <= k < |run| && Brings(run[k], c)
      ensures c in Commands(run)
    {
      assert run[k] in run;
    }
    AfterInvariant(config, run, Commands(run));
  }
}
