/**
 * What the driver does with a command, from the callback to the status that names it: which commands it takes,
 * what never reaches the gripper, and what one round of its loop writes, reads and publishes.
 */
module DriverOutcomes {
  import opened Backend
  import opened Driver
  import opened Messages
  import opened ProcessImage
  import opened ProcessImageProofs
  import opened Wrappers

  // ---------------------------------------------------------------- what is taken

  /** The command can be packed, has an id, and releases automatically only where that is allowed. */
  predicate Fit(config: Config, c: Command) {
    PackCommand(c.request).Success? && c.id != 0 && (c.request.automaticRelease ==> config.allowRelease)
  }

  lemma FitIsAcceptable(config: Config, c: Command)
    ensures Fit(config, c) <==> Acceptable(config, c)
  {
    PackRoundTrip(c.request);
  }

  /** A command that arrives is the pending one afterwards exactly when the driver is ready and it is fit; else nothing changes. */
  lemma AcceptedExactly(config: Config, s: State, c: Command)
    requires s.callback == None
    ensures var s' := Step(config, s, Receive(c));
      if s.ready && Fit(config, c) then
        s'.pending == Some(Ticket(c, |s.accepted|)) && s'.callback == None && s'.view == s.view && s'.pc == s.pc
      else s' == s
  {
    FitIsAcceptable(config, c);
  }

  /** The same for a callback that is interrupted between its tests and its store, whatever the worker does in between. */
  lemma StoredExactly(config: Config, s: State, c: Command)
    requires s.callback == None
    ensures var s' := Step(config, s, TestCommand(c));
      if s.ready && Fit(config, c) then
        s'.callback.Some? && s'.callback.value.command == c && s'.pending == s.pending
      else s' == s
    ensures forall t: State :: t.callback.Some? ==>
              var t' := Step(config, t, StoreCommand);
              t'.pending.Some? && t'.pending.value.command == t.callback.value.command && t'.callback == None
  {
    FitIsAcceptable(config, c);
  }

  // ---------------------------------------------------------------- what never reaches the gripper

  ghost predicate AllFit(config: Config, log: Log) {
    forall k :: 0 <= k < |log| && IsWrite(log[k]) ==> Fit(config, log[k].command)
  }

  ghost predicate OnlyFit(config: Config, s: State) {
    && (s.callback.Some? ==> Fit(config, s.callback.value.command))
    && (s.pending.Some? ==> Fit(config, s.pending.value.command))
    && (s.pc.Write? ==> Fit(config, s.pc.ticket.command))
    && AllFit(config, s.view.log)
  }

  /** What one step of the worker can add to the log. */
  ghost predicate Adds(log: Log, log': Log, pc: Pc) {
    && log <= log'
    && forall k :: |log| <= k < |log'| && IsWrite(log'[k]) ==> pc.Write? && log'[k].command == pc.ticket.command
  }

  lemma LoopAdds(config: Config, s: State, ch: Choice)
    requires s.pc == Loop
    ensures Adds(s.view.log, AtLoop(config, s, ch).view.log, s.pc)
  {
  }

  lemma WorkAdds(config: Config, s: State, ch: Choice)
    ensures Adds(s.view.log, Work(config, s, ch).view.log, s.pc)
  {
    if s.pc.Loop? {
      LoopAdds(config, s, ch);
    }
  }

  lemma WorkCarries(config: Config, s: State, ch: Choice)
    ensures var s' := Work(config, s, ch);
      && s'.callback == s.callback
      && (s'.pending == s.pending || s'.pending == None)
  {
  }

  lemma WorkTakes(config: Config, s: State, ch: Choice)
    ensures var s' := Work(config, s, ch);
      s'.pc.Write? ==> s.pending == Some(s'.pc.ticket)
  {
  }

  lemma AddedFit(config: Config, log: Log, log': Log, pc: Pc)
    requires AllFit(config, log) && Adds(log, log', pc) && (pc.Write? ==> Fit(config, pc.ticket.command))
    ensures AllFit(config, log')
  {
    hide Fit;
  }

  lemma WorkOnlyFit(config: Config, s: State, ch: Choice)
    requires OnlyFit(config, s)
    ensures OnlyFit(config, Work(config, s, ch))
  {
    hide Fit, Work, AllFit, Adds;
    WorkAdds(config, s, ch);
    WorkCarries(config, s, ch);
    WorkTakes(config, s, ch);
    AddedFit(config, s.view.log, Work(config, s, ch).view.log, s.pc);
  }

  lemma StepOnlyFit(config: Config, s: State, l: Label)
    requires OnlyFit(config, s)
    ensures OnlyFit(config, Step(config, s, l))
  {
    match l
    case TestCommand(c) => FitIsAcceptable(config, c);
    case Receive(c) => FitIsAcceptable(config, c);
    case StoreCommand =>
    case Worker(ch) => WorkOnlyFit(config, s, ch);
  }

  lemma {:induction false} AfterOnlyFit(config: Config, run: seq<Label>)
    ensures OnlyFit(config, After(config, run))
  {
    if run != [] {
      AfterOnlyFit(config, run[..|run| - 1]);
      StepOnlyFit(config, After(config, run[..|run| - 1]), run[|run| - 1]);
    }
  }

  /**
   * In every run, whatever was written or attempted has an id and a mode the gripper has, and asks for the
   * automatic release only where the configuration allows it.
   */
  lemma WritesAreFit(config: Config, run: seq<Label>, k: nat)
    requires k < |After(config, run).view.log| && IsWrite(After(config, run).view.log[k])
    ensures var c := After(config, run).view.log[k].command;
      c.id != 0 && c.request.mode <= 3 && (!config.allowRelease ==> !c.request.automaticRelease)
  {
    AfterOnlyFit(config, run);
    PackRoundTrip(After(config, run).view.log[k].command.request);
  }

  // ---------------------------------------------------------------- one round of the loop

  function Steps(config: Config, s: State, world: seq<Choice>): State
    decreases |world|
  {
    if world == [] then s else Steps(config, Work(config, s, world[0]), world[1..])
  }

  /** Every transaction works, and the reads return this. */
  function Good(d: Device): Choice {
    Choice(true, d, false)
  }

  function Times(n: nat, ch: Choice): (r: seq<Choice>)
    ensures |r| == n
  {
    if n == 0 then [] else [ch] + Times(n - 1, ch)
  }

  lemma OneMore(config: Config, s: State, n: nat, ch: Choice)
    requires n > 0
    ensures Steps(config, s, Times(n, ch)) == Steps(config, Work(config, s, ch), Times(n - 1, ch))
  {
    assert Times(n, ch)[0] == ch && Times(n, ch)[1..] == Times(n - 1, ch);
  }

  /** The read at the end of a round, from the point where nothing is left to be written. */
  lemma ReadsAndPublishes(config: Config, s: State, d: Device)
    requires s.pc == Read
    ensures Steps(config, s, Times(3, Good(d))) ==
            Published(Logged(s, Sampled(s.connections, d)), true, d).(ready := true, pc := Loop)
  {
    OneMore(config, s, 3, Good(d));
    var t := Work(config, s, Good(d));
    OneMore(config, t, 2, Good(d));
    OneMore(config, Work(config, t, Good(d)), 1, Good(d));
  }

  /** The state after a round on connection `c` has added `events` and published `d` with an id. */
  predicate RoundDone(s: State, s': State, events: Log, id: nat, d: Device) {
    && s'.view.log == s.view.log + events
    && s'.view.statuses == s.view.statuses + {Status(true, s'.connections % WRAP, id, d)}
    && s'.lastCommand == id && s'.ready && s'.open && s'.pc == Loop
  }

  /** With a pending command and transactions that work, a round writes it, reads once and publishes a status naming it. */
  lemma PendingIsDelivered(config: Config, s: State, c: Command, d: Device)
    requires s.pc == Loop && s.open && s.ready && s.pending.Some? && s.pending.value.command == c && c.request.mode <= 3
    ensures var s' := Steps(config, s, Times(7, Good(d)));
      && RoundDone(s, s', [Applied(s.connections, c), Sampled(s.connections, d)], c.id, d)
      && s'.pending == None && s'.connections == s.connections
  {
    OneMore(config, s, 7, Good(d));
    var t := Work(config, s, Good(d));
    OneMore(config, t, 6, Good(d));
    var u := Work(config, t, Good(d));
    OneMore(config, u, 5, Good(d));
    var v := Work(config, u, Good(d));
    OneMore(config, v, 4, Good(d));
    var x := Work(config, v, Good(d));
    ReadsAndPublishes(config, x, d);
    assert s.view.log + [Applied(s.connections, c)] + [Sampled(s.connections, d)]
        == s.view.log + [Applied(s.connections, c), Sampled(s.connections, d)];
  }

  /** Without one it just reads, and the status names the command named before. */
  lemma NothingPendingIsRead(config: Config, s: State, d: Device)
    requires s.pc == Loop && s.open && s.ready && s.pending == None
    ensures var s' := Steps(config, s, Times(5, Good(d)));
      && RoundDone(s, s', [Sampled(s.connections, d)], s.lastCommand, d)
      && s'.pending == None && s'.connections == s.connections
  {
    OneMore(config, s, 5, Good(d));
    var t := Work(config, s, Good(d));
    OneMore(config, t, 4, Good(d));
    ReadsAndPublishes(config, Work(config, t, Good(d)), d);
  }

  function Opening(s: State): State {
    Logged(s, Opened(s.connections + 1)).(connections := s.connections + 1, open := true, ready := false, lastCommand := 0, pc := Read)
  }

  lemma Connects(config: Config, s: State, d: Device)
    requires s.pc == Loop && !s.open && config.configured
    ensures Steps(config, s, Times(7, Good(d))) == Steps(config, Opening(s), Times(3, Good(d)))
  {
    OneMore(config, s, 7, Good(d));
    var t := Work(config, s, Good(d));
    OneMore(config, t, 6, Good(d));
    var u := Work(config, t, Good(d));
    OneMore(config, u, 5, Good(d));
    var v := Work(config, u, Good(d));
    OneMore(config, v, 4, Good(d));
  }

  /** A new connection gets a new number and is read before anything is written; the status names no command. */
  lemma ConnectingReads(config: Config, s: State, d: Device)
    requires s.pc == Loop && !s.open && config.configured
    ensures var s' := Steps(config, s, Times(7, Good(d)));
      && RoundDone(s, s', [Opened(s.connections + 1), Sampled(s.connections + 1, d)], 0, d)
      && s'.pending == s.pending && s'.connections == s.connections + 1
  {
    Connects(config, s, d);
    ReadsAndPublishes(config, Opening(s), d);
    assert s.view.log + [Opened(s.connections + 1)] + [Sampled(s.connections + 1, d)]
        == s.view.log + [Opened(s.connections + 1), Sampled(s.connections + 1, d)];
  }

  /** The state after a disconnect has been noted. */
  predicate Lost(s: State, s': State, events: Log) {
    && s'.view.log == s.view.log + events
    && s'.view.statuses == s.view.statuses + {Status(false, s.connections % WRAP, 0, ZERO_DEVICE)}
    && s'.lastCommand == 0 && !s'.ready && !s'.open && s'.pending == None && s'.pc == Loop
    && s'.connections == s.connections
  }

  lemma ClosesAndNotes(config: Config, s: State, ch: Choice)
    requires s.pc == Closing
    ensures Lost(s, Steps(config, s, Times(5, ch)), [Closed(s.connections)])
  {
    OneMore(config, s, 5, ch);
    NotesDisconnect(config, Work(config, s, ch), ch);
  }

  /** A transaction that fails closes the connection, drops whatever is pending and publishes a status without one. */
  lemma FailureDisconnects(config: Config, s: State, failing: Choice, ch: Choice)
    requires !failing.ok && (s.pc == Read || (s.pc.Write? && s.pc.ticket.command.request.mode <= 3))
    ensures Lost(s, Steps(config, Work(config, s, failing), Times(5, ch)),
                 if s.pc == Read then [Closed(s.connections)]
                 else [Attempted(s.connections, s.pc.ticket.command), Closed(s.connections)])
  {
    ClosesAndNotes(config, Work(config, s, failing), ch);
    if s.pc.Write? {
      var c := s.pc.ticket.command;
      assert s.view.log + [Attempted(s.connections, c)] + [Closed(s.connections)]
          == s.view.log + [Attempted(s.connections, c), Closed(s.connections)];
    }
  }

  lemma NotesDisconnect(config: Config, s: State, ch: Choice)
    requires s.pc == MarkReady && !s.open
    ensures Lost(s, Steps(config, s, Times(4, ch)), [])
  {
    OneMore(config, s, 4, ch);
    var t := Work(config, s, ch);
    OneMore(config, t, 3, ch);
    var u := Work(config, t, ch);
    OneMore(config, u, 2, ch);
    OneMore(config, Work(config, u, ch), 1, ch);
  }
}
