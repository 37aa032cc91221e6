/** What every reachable state of the driver keeps, and why it is a backend. */
module DriverInvariants {
  import opened Backend
  import opened Driver
  import opened Messages
  import opened ProcessImage
  import opened Wrappers

  // ---------------------------------------------------------------- the fields the worker owns

  predicate InTransaction(pc: Pc) {
    pc.Take? || pc.Write? || pc.StoreLast? || pc.Read? || pc.Publish? || pc.SetReady? || pc.ResetReady? || pc.ResetLast? || pc.Closing?
  }

  /** The flag that lets commands in is up only from a read until the disconnect is noted. */
  predicate MayBeReady(pc: Pc) {
    pc.Loop? || pc.Take? || pc.Write? || pc.StoreLast? || pc.Read? || pc.Publish? || pc.SetReady? ||
    pc.Closing? || pc.MarkReady? || pc.Quit?
  }

  predicate Control(s: State) {
    && (InTransaction(s.pc) ==> s.open)
    && (s.pc.MarkReady? || s.pc.MarkLast? || s.pc.MarkPending? || s.pc.MarkPublish? || s.pc.Quit? || s.pc.Stopped? ==> !s.open)
    && (s.ready ==> MayBeReady(s.pc))
    && (s.ready && s.pc.Loop? ==> s.open)
    && (s.pc.Write? ==> s.ready)
    && (s.pc.StoreLast? ==> s.ready)
  }

  /** Events so far are on earlier connections, or on the one that is open. */
  predicate Older(e: Event, connections: nat, open: bool) {
    e.connection <= connections && (e.Closed? && open ==> e.connection < connections)
  }

  ghost predicate Numbered(s: State) {
    && Ordered(s.view.log)
    && (forall k :: 0 <= k < |s.view.log| ==> Older(s.view.log[k], s.connections, s.open))
  }

  predicate Current(pc: Pc) {
    pc.Take? || pc.Write? || pc.Read? || pc.Publish? || pc.SetReady?
  }

  ghost predicate Tracking(s: State) {
    && ((Current(s.pc) || (s.pc.Loop? && s.open)) ==> Tracks(s.view.log, s.lastCommand, s.connections))
    && (s.pc.StoreLast? ==> s.pc.id != 0 && Tracks(s.view.log, s.pc.id, s.connections))
    && (s.pc.ResetReady? || s.pc.ResetLast? ==> NoWrites(s.view.log, s.connections))
    && (s.pc.Publish? ==> s.view.log != [] && s.view.log[|s.view.log| - 1] == Sampled(s.connections, s.pc.device))
  }

  predicate Good(sent: set<Command>, c: Command) {
    c in sent && c.id != 0 && c.request.mode <= MODE_SCISSOR
  }

  /** Commands on their way are ones that were sent, and fit to be written. */
  ghost predicate Carried(s: State, sent: set<Command>) {
    && (s.callback.Some? ==> Good(sent, s.callback.value.command))
    && (s.pending.Some? ==> Good(sent, s.pending.value.command))
    && (s.pc.Write? ==> Good(sent, s.pc.ticket.command))
  }

  ghost predicate Invariant(s: State, sent: set<Command>) {
    Control(s) && Numbered(s) && Tracking(s) && Carried(s, sent) && Contract(s.view, sent)
  }

  // ---------------------------------------------------------------- the log grows

  lemma NumberedAppended(s: State, e: Event, connections: nat, open: bool)
    requires Numbered(s)
    requires e.connection == connections && (e.Opened? ==> connections == s.connections + 1)
    requires !e.Opened? ==> connections == s.connections && s.open
    requires open ==> !e.Closed?
    ensures Numbered(Logged(s, e).(connections := connections, open := open))
  {
    forall k | 0 <= k < |s.view.log|
      ensures Follows(s.view.log[k], e)
    {
      assert Older(s.view.log[k], s.connections, s.open);
    }
    Appended(s.view.log, e);
    var s' := Logged(s, e).(connections := connections, open := open);
    forall k | 0 <= k < |s'.view.log|
      ensures Older(s'.view.log[k], connections, open)
    {
      if k < |s.view.log| {
        assert Older(s.view.log[k], s.connections, s.open);
      }
    }
  }

  lemma NothingOnNew(s: State)
    requires Numbered(s)
    ensures NoWrites(s.view.log + [Opened(s.connections + 1)], s.connections + 1)
  {
    forall k | 0 <= k < |s.view.log|
      ensures s.view.log[k].connection != s.connections + 1
    {
      assert Older(s.view.log[k], s.connections, s.open);
    }
  }

  // ---------------------------------------------------------------- every step is a backend step

  lemma PublishedContract(s: State, sent: set<Command>, connected: bool, device: Device)
    requires Contract(s.view, sent)
    requires Genuine(Status(connected, s.connections % WRAP, s.lastCommand, device), s.view.log)
    ensures Contract(Published(s, connected, device).view, sent)
  {
  }

  lemma LoopStep(config: Config, s: State, sent: set<Command>, ch: Choice)
    requires Invariant(s, sent) && s.pc.Loop?
    ensures Invariant(Work(config, s, ch), sent)
  {
    var s' := Work(config, s, ch);
    if ch.stop && s.open {
      NumberedAppended(s, Closed(s.connections), s.connections, false);
      ContractAppended(s.view, sent, Closed(s.connections));
    } else if !ch.stop && !s.open && config.configured && ch.ok {
      NumberedAppended(s, Opened(s.connections + 1), s.connections + 1, true);
      ContractAppended(s.view, sent, Opened(s.connections + 1));
      NothingOnNew(s);
    } else {
      assert s'.view == s.view;
    }
  }

  lemma WriteStep(config: Config, s: State, sent: set<Command>, ch: Choice)
    requires Invariant(s, sent) && s.pc.Write?
    ensures Invariant(Work(config, s, ch), sent)
  {
    var c := s.pc.ticket.command;
    var e := if ch.ok then Applied(s.connections, c) else Attempted(s.connections, c);
    NumberedAppended(s, e, s.connections, true);
    ContractAppended(s.view, sent, e);
    TracksWrite(s.view.log, c, s.connections);
  }

  lemma ReadStep(config: Config, s: State, sent: set<Command>, ch: Choice)
    requires Invariant(s, sent) && s.pc.Read?
    ensures Invariant(Work(config, s, ch), sent)
  {
    if ch.ok {
      var e := Sampled(s.connections, ch.device);
      NumberedAppended(s, e, s.connections, true);
      ContractAppended(s.view, sent, e);
      TracksRead(s.view.log, s.lastCommand, s.connections, ch.device);
    }
  }

  lemma ClosingStep(config: Config, s: State, sent: set<Command>, ch: Choice)
    requires Invariant(s, sent) && s.pc.Closing?
    ensures Invariant(Work(config, s, ch), sent)
  {
    NumberedAppended(s, Closed(s.connections), s.connections, false);
    ContractAppended(s.view, sent, Closed(s.connections));
  }

  lemma PublishStep(config: Config, s: State, sent: set<Command>, ch: Choice)
    requires Invariant(s, sent) && (s.pc.Publish? || s.pc.MarkPublish?)
    ensures Invariant(Work(config, s, ch), sent)
  {
    if s.pc.Publish? {
      ReadIsGenuine(s.view.log, s.lastCommand, s.connections, s.pc.device);
      PublishedContract(s, sent, true, s.pc.device);
    } else {
      PublishedContract(s, sent, false, ZERO_DEVICE);
    }
  }

  lemma WorkInvariant(config: Config, s: State, sent: set<Command>, ch: Choice)
    requires Invariant(s, sent)
    ensures Invariant(Work(config, s, ch), sent)
  {
    match s.pc
    case Loop => LoopStep(config, s, sent, ch);
    case Write(_) => WriteStep(config, s, sent, ch);
    case Read => ReadStep(config, s, sent, ch);
    case Closing => ClosingStep(config, s, sent, ch);
    case Publish(_) => PublishStep(config, s, sent, ch);
    case MarkPublish => PublishStep(config, s, sent, ch);
    case MarkReady => MarkStep(config, s, sent, ch);
    case MarkLast => MarkStep(config, s, sent, ch);
    case MarkPending => MarkStep(config, s, sent, ch);
    case Quit => MarkStep(config, s, sent, ch);
    case _ => QuietStep(config, s, sent, ch);
  }

  lemma MarkStep(config: Config, s: State, sent: set<Command>, ch: Choice)
    requires Invariant(s, sent) && (s.pc.MarkReady? || s.pc.MarkLast? || s.pc.MarkPending? || s.pc.Quit?)
    ensures Invariant(Work(config, s, ch), sent)
  {
    assert Work(config, s, ch).view == s.view;
  }

  lemma QuietStep(config: Config, s: State, sent: set<Command>, ch: Choice)
    requires Invariant(s, sent)
    requires s.pc.ResetReady? || s.pc.ResetLast? || s.pc.Take? || s.pc.StoreLast? || s.pc.SetReady? || s.pc.Stopped?
    ensures Invariant(Work(config, s, ch), sent)
  {
    assert Work(config, s, ch).view == s.view;
  }
}
