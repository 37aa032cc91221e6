/**
 * A run in which a command accepted before a disconnect is written after it: the callback tests the
 * ready flag outside the lock that guards the pending slot.
 */
module DriverReplay {
  import opened Backend
  import opened Driver
  import opened DriverTheorems
  import opened Messages
  import opened ProcessImage
  import opened Wrappers

  const CONFIG := Config(true, false)
  const ROUND := Worker(Choice(true, ZERO_DEVICE, false))
  const FAIL := Worker(Choice(false, ZERO_DEVICE, false))
  const COMMAND := Command(1, ZERO_REQUEST)

  /** Connect, read once, let commands in. */
  const FIRST_READ := [ROUND, ROUND, ROUND, ROUND, ROUND, ROUND, ROUND]

  /** The callback passes its tests; the next read fails and the disconnect is carried out. */
  const LOSS := [TestCommand(COMMAND), ROUND, ROUND, FAIL, ROUND, ROUND, ROUND, ROUND, ROUND]

  /** The callback stores its command on the new connection, where it is taken and written. */
  const REPLAY := [StoreCommand, ROUND, ROUND, ROUND]

  const RUN := FIRST_READ + LOSS + FIRST_READ + REPLAY

  /** One more step of a run. */
  lemma Then(run: seq<Label>, l: Label) returns (run': seq<Label>)
    ensures run' == run + [l] && After(CONFIG, run') == Step(CONFIG, After(CONFIG, run), l)
  {
    run' := run + [l];
    assert run'[..|run|] == run;
  }

  /** The state but for the statuses published on the way. */
  function Core(s: State): State {
    s.(view := s.view.(statuses := {}))
  }

  function WithLog(s: State, log: Log): State {
    s.(view := View(log, {}))
  }

  function Connected(s: State): State {
    WithLog(s, s.view.log + [Opened(s.connections + 1)]).(connections := s.connections + 1, lastCommand := 0, open := true, pc := Take)
  }

  function Polled(s: State): State {
    WithLog(s, s.view.log + [Sampled(s.connections, ZERO_DEVICE)]).(ready := true, pc := Loop)
  }

  /** After connecting and reading once. */
  function Started(s: State): State {
    var c := s.connections + 1;
    WithLog(s, s.view.log + [Opened(c), Sampled(c, ZERO_DEVICE)]).(
      ready := true, connections := c, lastCommand := 0, open := true, pc := Loop)
  }

  lemma Connect(run: seq<Label>) returns (run': seq<Label>)
    requires var s := After(CONFIG, run); s.pc == Loop && !s.open && !s.ready
    ensures run' == run + [ROUND, ROUND, ROUND]
    ensures Core(After(CONFIG, run')) == Connected(After(CONFIG, run))
  {
    run' := Then(run, ROUND);
    run' := Then(run', ROUND);
    run' := Then(run', ROUND);
  }

  lemma Poll(run: seq<Label>) returns (run': seq<Label>)
    requires After(CONFIG, run).pc == Take && !After(CONFIG, run).ready
    ensures run' == run + [ROUND, ROUND, ROUND, ROUND]
    ensures Core(After(CONFIG, run')) == Polled(After(CONFIG, run))
  {
    run' := Then(run, ROUND);
    run' := Then(run', ROUND);
    run' := Then(run', ROUND);
    run' := Then(run', ROUND);
  }

  lemma ConnectedPolled(s: State, m: State)
    requires Core(m) == Connected(s)
    ensures Polled(m) == Started(s)
  {
    var c := s.connections + 1;
    assert m.view.log == Core(m).view.log;
    assert s.view.log + [Opened(c)] + [Sampled(c, ZERO_DEVICE)] == s.view.log + [Opened(c), Sampled(c, ZERO_DEVICE)];
  }

  lemma FirstRead(run: seq<Label>) returns (run': seq<Label>)
    requires var s := After(CONFIG, run); s.pc == Loop && !s.open && !s.ready
    ensures run' == run + FIRST_READ
    ensures Core(After(CONFIG, run')) == Started(After(CONFIG, run))
  {
    var half := Connect(run);
    var m := After(CONFIG, half);
    assert m.pc == Core(m).pc && m.ready == Core(m).ready;
    run' := Poll(half);
    ConnectedPolled(After(CONFIG, run), m);
  }

  lemma Loss(run: seq<Label>) returns (run': seq<Label>)
    requires var s := After(CONFIG, run); s.pc == Loop && s.open && s.ready && s.pending == None && s.callback == None
    ensures run' == run + LOSS
    ensures var s := After(CONFIG, run);
      Core(After(CONFIG, run')) ==
      WithLog(s, s.view.log + [Closed(s.connections)]).(
        ready := false, open := false, lastCommand := 0, resets := s.resets + 1,
        callback := Some(Callback(COMMAND, s.connections, s.resets)))
  {
    run' := Then(run, TestCommand(COMMAND));
    run' := Then(run', ROUND);
    run' := Then(run', ROUND);
    run' := Then(run', FAIL);
    run' := Disconnect(run');
  }

  lemma Disconnect(run: seq<Label>) returns (run': seq<Label>)
    requires After(CONFIG, run).pc == Closing && After(CONFIG, run).pending == None
    ensures run' == run + [ROUND, ROUND, ROUND, ROUND, ROUND]
    ensures var s := After(CONFIG, run);
      Core(After(CONFIG, run')) ==
      WithLog(s, s.view.log + [Closed(s.connections)]).(
        ready := false, open := false, lastCommand := 0, resets := s.resets + 1, pc := Loop)
  {
    run' := Close(run);
    run' := Then(run', ROUND);
    run' := Then(run', ROUND);
    run' := Then(run', ROUND);
  }

  lemma Close(run: seq<Label>) returns (run': seq<Label>)
    requires After(CONFIG, run).pc == Closing
    ensures run' == run + [ROUND, ROUND]
    ensures var s := After(CONFIG, run);
      After(CONFIG, run') == Logged(s, Closed(s.connections)).(open := false, ready := false, pc := MarkLast)
  {
    run' := Then(run, ROUND);
    run' := Then(run', ROUND);
  }

  lemma Replay(run: seq<Label>) returns (run': seq<Label>)
    requires var s := After(CONFIG, run); s.pc == Loop && s.open && s.ready && s.callback.Some?
    requires After(CONFIG, run).callback.value.command == COMMAND
    ensures run' == run + REPLAY
    ensures var s := After(CONFIG, run); var s' := After(CONFIG, run');
      && s'.view.log == s.view.log + [Applied(s.connections, COMMAND)]
      && s'.written == s.written + [Written(|s.accepted|, |s.view.log|)]
      && s'.accepted == s.accepted + [Acceptance(COMMAND, s.callback.value.connection, s.callback.value.before, s.resets)]
  {
    run' := Then(run, StoreCommand);
    run' := Then(run', ROUND);
    run' := Then(run', ROUND);
    run' := Then(run', ROUND);
  }

  lemma FirstConnection() returns (run: seq<Label>)
    ensures run == FIRST_READ
    ensures Core(After(CONFIG, run)) ==
      WithLog(INITIAL, [Opened(1), Sampled(1, ZERO_DEVICE)]).(ready := true, connections := 1, open := true)
  {
    run := FirstRead([]);
    assert [] + [Opened(1), Sampled(1, ZERO_DEVICE)] == [Opened(1), Sampled(1, ZERO_DEVICE)];
  }

  /** The state after the loss: nothing pending, and a callback that has passed its tests. */
  lemma Interrupted() returns (run: seq<Label>)
    ensures run == FIRST_READ + LOSS
    ensures Core(After(CONFIG, run)) ==
      WithLog(INITIAL, [Opened(1), Sampled(1, ZERO_DEVICE), Closed(1)]).(
        connections := 1, resets := 1, callback := Some(Callback(COMMAND, 1, 0)))
  {
    run := FirstConnection();
    var s := After(CONFIG, run);
    assert s.view.log == [Opened(1), Sampled(1, ZERO_DEVICE)];
    assert s.pc == Loop && s.open && s.ready && s.pending == None && s.callback == None;
    run := Loss(run);
    assert s.view.log + [Closed(1)] == [Opened(1), Sampled(1, ZERO_DEVICE), Closed(1)];
  }

  /** The command was let in on connection 1, which was then lost, and is written on connection 2. */
  lemma StaleCommandIsWritten()
    ensures var s := After(CONFIG, RUN);
      && s.accepted == [Acceptance(COMMAND, 1, 0, 1)]
      && s.written == [Written(0, 5)] && |s.view.log| == 6
      && s.view.log[2] == Closed(1) && s.view.log[5] == Applied(2, COMMAND)
  {
    var run := Interrupted();
    var run' := FirstRead(run);
    var s := After(CONFIG, run');
    assert s.view.log == [Opened(1), Sampled(1, ZERO_DEVICE), Closed(1), Opened(2), Sampled(2, ZERO_DEVICE)];
    var run'' := Replay(run');
    assert run'' == RUN;
  }
}
