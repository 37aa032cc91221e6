/** What the driver guarantees over all runs. */
module DriverTheorems {
  import opened Backend
  import opened Driver
  import opened DriverInvariants
  import opened Messages
  import opened ProcessImage
  import opened Wrappers

  // ---------------------------------------------------------------- the driver is a backend

  /** At most one event more. */
  predicate LogsOne(log: Log, log': Log) {
    log' == log || (|log'| == |log| + 1 && log'[..|log|] == log)
  }

  lemma LoopLogs(config: Config, s: State, ch: Choice)
    ensures LogsOne(s.view.log, AtLoop(config, s, ch).view.log)
  {
  }

  lemma WriteLogs(s: State, ticket: Ticket, ch: Choice)
    ensures LogsOne(s.view.log, AtWrite(s, ticket, ch).view.log)
  {
  }

  /** A worker step logs at most one event. */
  lemma WorkLogs(config: Config, s: State, ch: Choice)
    ensures LogsOne(s.view.log, Work(config, s, ch).view.log)
  {
    LoopLogs(config, s, ch);
    if s.pc.Write? {
      WriteLogs(s, s.pc.ticket, ch);
    }
  }

  lemma LogGrows(config: Config, s: State, l: Label)
    ensures s.view.log <= Step(config, s, l).view.log
  {
    if l.Worker? {
      WorkLogs(config, s, l.choice);
    }
  }

  lemma StatusesGrow(config: Config, s: State, l: Label)
    ensures s.view.statuses <= Step(config, s, l).view.statuses
  {
  }

  lemma CallbackInvariant(config: Config, s: State, sent: set<Command>, l: Label)
    requires Invariant(s, sent) && !l.Worker?
    requires forall c :: Brings(l, c) ==> c in sent
    ensures Invariant(Step(config, s, l), sent)
  {
    assert l.TestCommand? || l.Receive? ==> Brings(l, l.command);
  }

  /** Every step of the driver, given commands that were sent, is a step the contract allows. */
  lemma DriverIsBackend(config: Config, s: State, sent: set<Command>, l: Label)
    requires Invariant(s, sent)
    requires forall c :: Brings(l, c) ==> c in sent
    ensures Invariant(Step(config, s, l), sent)
    ensures BackendStep(s.view, sent, Step(config, s, l).view)
  {
    LogGrows(config, s, l);
    StatusesGrow(config, s, l);
    if l.Worker? {
      WorkInvariant(config, s, sent, l.choice);
    } else {
      CallbackInvariant(config, s, sent, l);
    }
  }

  ghost predicate Fed(run: seq<Label>, sent: set<Command>) {
    forall k, c :: 0 <= k < |run| && Brings(run[k], c) ==> c in sent
  }

  lemma {:induction false} AfterInvariant(config: Config, run: seq<Label>, sent: set<Command>)
    requires Fed(run, sent)
    ensures Invariant(After(config, run), sent)
  {
    if run != [] {
      AfterInvariant(config, run[..|run| - 1], sent);
      DriverIsBackend(config, After(config, run[..|run| - 1]), sent, run[|run| - 1]);
    }
  }

  // ---------------------------------------------------------------- where writes come from

  /** One write: it is in the log, and its command is the one accepted. */
  predicate Traced(s: State, w: Written) {
    && w.source < |s.accepted| && w.at < |s.view.log|
    && IsWrite(s.view.log[w.at])
    && s.view.log[w.at].command == s.accepted[w.source].command
  }

  predicate Before(v: Written, w: Written) {
    v.source < w.source && v.at < w.at
  }

  predicate Recorded(written: seq<Written>, at: nat) {
    exists i :: 0 <= i < |written| && written[i].at == at
  }

  predicate Unused(s: State, t: Ticket) {
    && t.source < |s.accepted|
    && s.accepted[t.source].command == t.command
    && (forall i :: 0 <= i < |s.written| ==> s.written[i].source < t.source)
  }

  /** Writes are accepted commands in the order of acceptance, none twice; the ones on their way come after. */
  ghost predicate Provenance(s: State) {
    && (forall i :: 0 <= i < |s.written| ==> Traced(s, s.written[i]))
    && (forall i, j :: 0 <= i < j < |s.written| ==> Before(s.written[i], s.written[j]))
    && (forall k :: 0 <= k < |s.view.log| && IsWrite(s.view.log[k]) ==> Recorded(s.written, k))
    && (s.pending.Some? ==> Unused(s, s.pending.value))
    && (s.pc.Write? ==> Unused(s, s.pc.ticket))
    && (s.pc.Write? && s.pending.Some? ==> s.pc.ticket.source < s.pending.value.source)
  }

  /** A step that writes nothing, and hands over at most the pending command. */
  ghost predicate Unwriting(s: State, s': State) {
    LogsNoWrite(s, s') && HandsOver(s, s')
  }

  ghost predicate LogsNoWrite(s: State, s': State) {
    && s.view.log <= s'.view.log
    && (forall k :: |s.view.log| <= k < |s'.view.log| ==> !IsWrite(s'.view.log[k]))
  }

  predicate HandsOver(s: State, s': State) {
    && s'.written == s.written && s'.accepted == s.accepted
    && (s'.pending == s.pending || s'.pending == None)
    && (s'.pc.Write? ==> s.pending == Some(s'.pc.ticket) && s'.pending == None)
  }

  lemma WorkLogsNoWrite(config: Config, s: State, ch: Choice)
    requires !s.pc.Write?
    ensures LogsNoWrite(s, Work(config, s, ch))
  {
    var s' := Work(config, s, ch);
    WorkLogs(config, s, ch);
    WorkEvent(config, s, ch);
    OneNoWrite(s, s');
  }

  lemma WorkEvent(config: Config, s: State, ch: Choice)
    requires !s.pc.Write?
    ensures var log := Work(config, s, ch).view.log; |log| > |s.view.log| ==> !IsWrite(log[|s.view.log|])
  {
  }

  lemma OneNoWrite(s: State, s': State)
    requires LogsOne(s.view.log, s'.view.log)
    requires |s'.view.log| > |s.view.log| ==> !IsWrite(s'.view.log[|s.view.log|])
    ensures LogsNoWrite(s, s')
  {
  }

  lemma WorkHandsOver(config: Config, s: State, ch: Choice)
    requires !s.pc.Write?
    ensures HandsOver(s, Work(config, s, ch))
  {
    if s.pc.Loop? {
      LoopHandsOver(config, s, ch);
    } else {
      QuietHandsOver(config, s, ch);
    }
  }

  lemma LoopHandsOver(config: Config, s: State, ch: Choice)
    ensures HandsOver(s.(pc := Loop), AtLoop(config, s.(pc := Loop), ch))
  {
  }

  lemma QuietHandsOver(config: Config, s: State, ch: Choice)
    requires !s.pc.Loop? && !s.pc.Write?
    ensures HandsOver(s, Work(config, s, ch))
  {
  }

  lemma WorkUnwriting(config: Config, s: State, ch: Choice)
    requires !s.pc.Write?
    ensures Unwriting(s, Work(config, s, ch))
  {
    WorkLogsNoWrite(config, s, ch);
    WorkHandsOver(config, s, ch);
  }

  lemma ProvenanceKept(s: State, s': State)
    requires Provenance(s) && Unwriting(s, s')
    ensures Provenance(s')
  {
    forall i | 0 <= i < |s'.written|
      ensures Traced(s', s'.written[i])
    {
      assert Traced(s, s.written[i]);
    }
  }

  lemma RecordedAppended(written: seq<Written>, w: Written, at: nat)
    requires Recorded(written, at) || w.at == at
    ensures Recorded(written + [w], at)
  {
    if Recorded(written, at) {
      var i :| 0 <= i < |written| && written[i].at == at;
      assert (written + [w])[i].at == at;
    } else {
      assert (written + [w])[|written|].at == at;
    }
  }

  /** One event and one record are added for a ticket that was not used before. */
  lemma ProvenanceWritten(s: State, s': State, t: Ticket, e: Event)
    requires Provenance(s) && s.pc.Write? && s.pc.ticket == t
    requires IsWrite(e) && e.command == t.command
    requires s'.view.log == s.view.log + [e] && s'.written == s.written + [Written(t.source, |s.view.log|)]
    requires s'.accepted == s.accepted && s'.pending == s.pending && !s'.pc.Write?
    ensures Provenance(s')
  {
    var w := Written(t.source, |s.view.log|);
    forall i | 0 <= i < |s'.written|
      ensures Traced(s', s'.written[i])
    {
      assert i < |s.written| ==> Traced(s, s.written[i]);
    }
    forall k | 0 <= k < |s'.view.log| && IsWrite(s'.view.log[k])
      ensures Recorded(s'.written, k)
    {
      assert k < |s.view.log| ==> s'.view.log[k] == s.view.log[k];
      RecordedAppended(s.written, w, k);
    }
    forall i, j | 0 <= i < j < |s'.written|
      ensures Before(s'.written[i], s'.written[j])
    {
      assert s'.written[i] == s.written[i] && Traced(s, s.written[i]);
      assert j < |s.written| ==> Before(s.written[i], s.written[j]);
    }
  }

  lemma StoreProvenance(s: State)
    requires Provenance(s)
    ensures Provenance(Store(s))
  {
    var s' := Store(s);
    forall i | 0 <= i < |s'.written|
      ensures Traced(s', s'.written[i])
    {
      assert Traced(s, s.written[i]);
    }
  }

  lemma CallbackProvenance(config: Config, s: State, l: Label)
    requires Provenance(s) && !l.Worker?
    ensures Provenance(Step(config, s, l))
  {
    StoreProvenance(s);
    if l.Receive? && s.callback.None? {
      StoreProvenance(Test(config, s, l.command));
    }
  }

  lemma WorkProvenance(config: Config, s: State, ch: Choice)
    requires Provenance(s)
    ensures Provenance(Work(config, s, ch))
  {
    if !s.pc.Write? {
      WorkUnwriting(config, s, ch);
      ProvenanceKept(s, Work(config, s, ch));
    } else if Packable(s.pc.ticket.command.request) {
      var c := s.pc.ticket.command;
      ProvenanceWritten(s, Work(config, s, ch), s.pc.ticket,
        if ch.ok then Applied(s.connections, c) else Attempted(s.connections, c));
    }
  }

  lemma StepProvenance(config: Config, s: State, l: Label)
    requires Provenance(s)
    ensures Provenance(Step(config, s, l))
  {
    if l.Worker? {
      WorkProvenance(config, s, l.choice);
    } else {
      CallbackProvenance(config, s, l);
    }
  }

  // ---------------------------------------------------------------- on which connection

  /** The worker is on the connection the last passed test saw, or has not yet dropped what was pending. */
  predicate Alive(pc: Pc, open: bool) {
    open || pc.MarkReady? || pc.MarkLast? || pc.MarkPending? || pc.Quit? || pc.Stopped?
  }

  /** A test on an earlier connection is one from before the last pending reset. */
  predicate Dated(s: State, connection: nat, before: nat) {
    && before <= s.resets && connection <= s.connections
    && (before == s.resets ==> connection == s.connections && Alive(s.pc, s.open))
    && (before < s.resets && s.open ==> connection < s.connections)
  }

  predicate Acknowledges(s: State, a: Acceptance) {
    && a.before <= a.after <= s.resets
    && Dated(s, a.connection, a.before)
  }

  ghost predicate Dates(s: State) {
    && Control(s)
    && (s.callback.Some? ==> Dated(s, s.callback.value.connection, s.callback.value.before))
    && (forall i :: 0 <= i < |s.accepted| ==> Acknowledges(s, s.accepted[i]))
    && (s.pending.Some? ==> s.pending.value.source < |s.accepted| && s.accepted[s.pending.value.source].after == s.resets)
    && (s.pc.Write? ==> s.pc.ticket.source < |s.accepted| && s.accepted[s.pc.ticket.source].after == s.resets)
  }

  /** The written command was accepted on the connection it went out on. */
  predicate OnItsConnection(s: State, w: Written)
    requires Traced(s, w)
  {
    s.view.log[w.at].connection == s.accepted[w.source].connection
  }

  /** No pending reset came between the test and the store. */
  predicate Straight(s: State, w: Written)
    requires w.source < |s.accepted|
  {
    s.accepted[w.source].before == s.accepted[w.source].after
  }

  ghost predicate Settled(s: State) {
    forall i :: 0 <= i < |s.written| ==>
      Traced(s, s.written[i]) && (OnItsConnection(s, s.written[i]) <==> Straight(s, s.written[i]))
  }

  ghost predicate Dating(s: State) {
    Provenance(s) && Dates(s) && Settled(s)
  }

  /** Every worker step keeps the dates in order. */
  lemma DatedStep(config: Config, s: State, ch: Choice, connection: nat, before: nat)
    requires Control(s) && Dated(s, connection, before)
    ensures Dated(Work(config, s, ch), connection, before)
  {
  }

  lemma WorkControl(config: Config, s: State, ch: Choice)
    requires Control(s)
    ensures Control(Work(config, s, ch))
  {
  }

  /** What a worker step does to what the callback left. */
  predicate KeepsAccepted(s: State, s': State) {
    s'.callback == s.callback && s'.accepted == s.accepted && s.resets <= s'.resets
  }

  predicate KeepsPending(s: State, s': State) {
    && (s'.pending.Some? ==> s'.pending == s.pending && s'.resets == s.resets)
    && (s'.pc.Write? ==> s.pending == Some(s'.pc.ticket) && s'.resets == s.resets)
  }

  lemma WorkKeepsAccepted(config: Config, s: State, ch: Choice)
    ensures KeepsAccepted(s, Work(config, s, ch))
  {
    if s.pc.Loop? {
      LoopKeepsAccepted(config, s, ch);
    } else if s.pc.Write? {
      WriteKeepsAccepted(s, s.pc.ticket, ch);
    } else {
      QuietKeepsAccepted(config, s, ch);
    }
  }

  lemma QuietKeepsAccepted(config: Config, s: State, ch: Choice)
    requires !s.pc.Loop? && !s.pc.Write?
    ensures KeepsAccepted(s, Work(config, s, ch))
  {
  }

  lemma LoopKeepsAccepted(config: Config, s: State, ch: Choice)
    ensures KeepsAccepted(s, AtLoop(config, s, ch))
  {
  }

  lemma WriteKeepsAccepted(s: State, ticket: Ticket, ch: Choice)
    ensures KeepsAccepted(s, AtWrite(s, ticket, ch))
  {
  }

  lemma WorkKeepsPending(config: Config, s: State, ch: Choice)
    ensures KeepsPending(s, Work(config, s, ch))
  {
  }

  lemma WorkDates(config: Config, s: State, ch: Choice)
    requires Dates(s)
    ensures Dates(Work(config, s, ch))
  {
    var s' := Work(config, s, ch);
    WorkControl(config, s, ch);
    WorkKeepsAccepted(config, s, ch);
    WorkKeepsPending(config, s, ch);
    if s.callback.Some? {
      DatedStep(config, s, ch, s.callback.value.connection, s.callback.value.before);
    }
    forall i | 0 <= i < |s'.accepted|
      ensures Acknowledges(s', s'.accepted[i])
    {
      assert Acknowledges(s, s.accepted[i]);
      DatedStep(config, s, ch, s.accepted[i].connection, s.accepted[i].before);
    }
  }

  lemma StoreDates(s: State)
    requires Dates(s)
    ensures Dates(Store(s))
  {
    var s' := Store(s);
    forall i | 0 <= i < |s'.accepted|
      ensures Acknowledges(s', s'.accepted[i])
    {
      assert i < |s.accepted| ==> Acknowledges(s, s.accepted[i]);
    }
  }

  lemma TestDates(config: Config, s: State, c: Command)
    requires Dates(s)
    ensures Dates(Test(config, s, c))
  {
    var s' := Test(config, s, c);
    forall i | 0 <= i < |s'.accepted|
      ensures Acknowledges(s', s'.accepted[i])
    {
      assert Acknowledges(s, s.accepted[i]);
    }
  }

  lemma StepDates(config: Config, s: State, l: Label)
    requires Dates(s)
    ensures Dates(Step(config, s, l))
  {
    match l
    case Worker(ch) => WorkDates(config, s, ch);
    case TestCommand(c) => TestDates(config, s, c);
    case StoreCommand => StoreDates(s);
    case Receive(c) => TestDates(config, s, c); StoreDates(Test(config, s, c));
  }

  /** A record stays settled while its event and its acceptance stay. */
  lemma SettledKept(s: State, s': State)
    requires Settled(s) && s'.written == s.written && s.accepted <= s'.accepted && s.view.log <= s'.view.log
    ensures Settled(s')
  {
    forall i | 0 <= i < |s'.written|
      ensures Traced(s', s'.written[i]) && (OnItsConnection(s', s'.written[i]) <==> Straight(s', s'.written[i]))
    {
      assert Traced(s, s.written[i]) && (OnItsConnection(s, s.written[i]) <==> Straight(s, s.written[i]));
    }
  }

  /** The decisive step: when a command is written, its date tells on which connection it was accepted. */
  lemma WriteSettled(config: Config, s: State, ch: Choice)
    requires Settled(s) && Dates(s) && Provenance(s) && s.pc.Write?
    ensures Settled(Work(config, s, ch))
  {
    var s' := Work(config, s, ch);
    var t := s.pc.ticket;
    assert Acknowledges(s, s.accepted[t.source]) && Unused(s, t);
    forall i | 0 <= i < |s'.written|
      ensures Traced(s', s'.written[i]) && (OnItsConnection(s', s'.written[i]) <==> Straight(s', s'.written[i]))
    {
      if i < |s.written| {
        assert s'.written[i] == s.written[i];
        assert Traced(s, s.written[i]) && (OnItsConnection(s, s.written[i]) <==> Straight(s, s.written[i]));
      }
    }
  }

  lemma StepSettled(config: Config, s: State, l: Label)
    requires Settled(s) && Dates(s) && Provenance(s)
    ensures Settled(Step(config, s, l))
  {
    LogGrows(config, s, l);
    if l.Worker? {
      if s.pc.Write? {
        WriteSettled(config, s, l.choice);
      } else {
        WorkUnwriting(config, s, l.choice);
        SettledKept(s, Step(config, s, l));
      }
    } else {
      SettledKept(s, Step(config, s, l));
    }
  }

  lemma {:induction false} AfterDating(config: Config, run: seq<Label>)
    ensures Dating(After(config, run))
  {
    if run != [] {
      var s := After(config, run[..|run| - 1]);
      var l := run[|run| - 1];
      AfterDating(config, run[..|run| - 1]);
      StepProvenance(config, s, l);
      StepDates(config, s, l);
      StepSettled(config, s, l);
    }
  }

  // ---------------------------------------------------------------- the write trace

  /**
   * Whatever the interleaving, the commands written, failed writes included, are accepted ones in the
   * order in which they were accepted, and no acceptance is written twice.
   */
  lemma WritesAreAccepted(config: Config, run: seq<Label>)
    ensures var s := After(config, run);
      && (forall i :: 0 <= i < |s.written| ==> Traced(s, s.written[i]))
      && (forall i, j :: 0 <= i < j < |s.written| ==> Before(s.written[i], s.written[j]))
      && (forall k :: 0 <= k < |s.view.log| && IsWrite(s.view.log[k]) ==> Recorded(s.written, k))
  {
    AfterDating(config, run);
  }

  /**
   * A command goes out on the connection it was accepted on exactly when no disconnect emptied the
   * pending slot between the callback's test of the ready flag and its store.
   */
  lemma StaleExactlyWhenStraddling(config: Config, run: seq<Label>, i: nat)
    requires i < |After(config, run).written|
    ensures var s := After(config, run);
      Traced(s, s.written[i]) && (OnItsConnection(s, s.written[i]) <==> Straight(s, s.written[i]))
  {
    AfterDating(config, run);
  }

  lemma {:induction false} AtomicStraight(config: Config, run: seq<Label>)
    requires Atomic(run)
    ensures After(config, run).callback == None
    ensures forall i :: 0 <= i < |After(config, run).accepted| ==>
              After(config, run).accepted[i].before == After(config, run).accepted[i].after
  {
    if run != [] {
      var s := After(config, run[..|run| - 1]);
      AtomicStraight(config, run[..|run| - 1]);
      assert !run[|run| - 1].TestCommand?;
      if run[|run| - 1].Worker? {
        WorkKeepsAccepted(config, s, run[|run| - 1].choice);
      }
    }
  }

  /** With the callback as one step, nothing accepted before a disconnect is written after it. */
  lemma AtomicNeverReplays(config: Config, run: seq<Label>, i: nat)
    requires Atomic(run) && i < |After(config, run).written|
    ensures var s := After(config, run); Traced(s, s.written[i]) && OnItsConnection(s, s.written[i])
  {
    AtomicStraight(config, run);
    StaleExactlyWhenStraddling(config, run, i);
  }

  // ---------------------------------------------------------------- a connection starts with a read

  predicate SeenRead(log: Log, before: nat, connection: nat) {
    exists r :: 0 <= r < before <= |log| && log[r].Sampled? && log[r].connection == connection
  }

  /** The first transaction of every connection is a status read. */
  predicate ReadsFirst(log: Log) {
    forall k :: 0 <= k < |log| && IsWrite(log[k]) ==> SeenRead(log, k, log[k].connection)
  }

  predicate Primed(s: State) {
    && Control(s)
    && ((s.ready && s.open) || s.pc.Publish? || s.pc.SetReady? ==> SeenRead(s.view.log, |s.view.log|, s.connections))
    && ReadsFirst(s.view.log)
  }

  lemma SeenReadStays(log: Log, before: nat, connection: nat, e: Event)
    requires SeenRead(log, before, connection)
    ensures SeenRead(log + [e], before, connection) && SeenRead(log + [e], before + 1, connection)
  {
    var r :| 0 <= r < before && log[r].Sampled? && log[r].connection == connection;
    assert (log + [e])[r] == log[r];
  }

  lemma ReadsFirstStays(log: Log, e: Event)
    requires ReadsFirst(log) && (IsWrite(e) ==> SeenRead(log, |log|, e.connection))
    ensures ReadsFirst(log + [e])
  {
    forall k | 0 <= k < |log + [e]| && IsWrite((log + [e])[k])
      ensures SeenRead(log + [e], k, (log + [e])[k].connection)
    {
      SeenReadStays(log, k, (log + [e])[k].connection, e);
    }
  }

  lemma LoggedPrimed(s: State, e: Event)
    requires Primed(s) && (IsWrite(e) ==> s.pc.Write? && e.connection == s.connections)
    ensures ReadsFirst(s.view.log + [e])
    ensures SeenRead(s.view.log, |s.view.log|, s.connections) ==> SeenRead(s.view.log + [e], |s.view.log| + 1, s.connections)
  {
    ReadsFirstStays(s.view.log, e);
    if SeenRead(s.view.log, |s.view.log|, s.connections) {
      SeenReadStays(s.view.log, |s.view.log|, s.connections, e);
    }
  }

  lemma WorkPrimed(config: Config, s: State, ch: Choice)
    requires Primed(s)
    ensures Primed(Work(config, s, ch))
  {
    var s' := Work(config, s, ch);
    WorkControl(config, s, ch);
    if s'.view.log != s.view.log {
      var e := s'.view.log[|s.view.log|];
      assert s'.view.log == s.view.log + [e];
      LoggedPrimed(s, e);
      if s.pc.Read? {
        assert s'.view.log[|s.view.log|].Sampled?;
      }
    }
  }

  lemma {:induction false} AfterPrimed(config: Config, run: seq<Label>)
    ensures Primed(After(config, run))
  {
    if run != [] {
      AfterPrimed(config, run[..|run| - 1]);
      if run[|run| - 1].Worker? {
        WorkPrimed(config, After(config, run[..|run| - 1]), run[|run| - 1].choice);
      }
    }
  }

  /** On every connection a read comes before every write. */
  lemma ConnectionsStartWithRead(config: Config, run: seq<Label>)
    ensures ReadsFirst(After(config, run).view.log)
  {
    AfterPrimed(config, run);
  }

  /** Without an address the driver never opens a connection, and so never writes. */
  lemma {:induction false} UnconfiguredNeverConnects(config: Config, run: seq<Label>)
    requires !config.configured
    ensures After(config, run).view.log == [] && !After(config, run).open
    ensures forall s :: s in After(config, run).view.statuses ==> !s.connected
  {
    if run != [] {
      var before := After(config, run[..|run| - 1]);
      UnconfiguredNeverConnects(config, run[..|run| - 1]);
      AfterPrimed(config, run[..|run| - 1]);
      AfterPrimed(config, run);
    }
  }
}
