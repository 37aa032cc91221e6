/**
 * The driver node as the object it is: its fields, the command callback and the worker's loop. Every
 * method is shown to perform steps of the step system, so its theorems hold of the object.
 */
module DriverNode {
  import opened Backend
  import opened Driver
  import DriverOutcomes
  import opened Messages
  import opened ProcessImage
  import opened Wrappers

  predicate IsStep(config: Config, s: State, t: State, ch: Choice) {
    t == Work(config, s, ch)
  }

  /** The states the worker goes through from index `from` on of what the world decides. */
  ghost predicate IsPath(config: Config, world: nat -> Choice, path: seq<State>, from: nat) {
    forall i :: 0 <= i && i + 1 < |path| ==> IsStep(config, path[i], path[i + 1], world(from + i))
  }

  ghost predicate PathBetween(config: Config, world: nat -> Choice, path: seq<State>, s: State, t: State, from: nat, end: nat) {
    from <= end && |path| == end - from + 1 && path[0] == s && path[end - from] == t && IsPath(config, world, path, from)
  }

  /** The worker's steps lead from one state to the other. */
  ghost predicate Works(config: Config, world: nat -> Choice, s: State, t: State, from: nat, end: nat) {
    exists path :: PathBetween(config, world, path, s, t, from, end)
  }

  lemma OneStep(config: Config, world: nat -> Choice, s: State, t: State, n: nat)
    requires t == Work(config, s, world(n))
    ensures Works(config, world, s, t, n, n + 1)
  {
    assert PathBetween(config, world, [s, t], s, t, n, n + 1);
  }

  lemma NoStep(config: Config, world: nat -> Choice, s: State, n: nat)
    ensures Works(config, world, s, s, n, n)
  {
    assert PathBetween(config, world, [s], s, s, n, n);
  }

  /** Two stretches of work make one. */
  lemma Chain(config: Config, world: nat -> Choice, s: State, t: State, u: State, from: nat, mid: nat, end: nat)
    requires Works(config, world, s, t, from, mid) && Works(config, world, t, u, mid, end)
    ensures Works(config, world, s, u, from, end)
  {
    var p :| PathBetween(config, world, p, s, t, from, mid);
    var q :| PathBetween(config, world, q, t, u, mid, end);
    var path := p + q[1..];
    forall i | 0 <= i && i + 1 < |path|
      ensures IsStep(config, path[i], path[i + 1], world(from + i))
    {
      if i + 1 < |p| {
        assert IsStep(config, p[i], p[i + 1], world(from + i));
      } else {
        var j := i - (mid - from);
        assert path[i] == q[j] && path[i + 1] == q[j + 1];
        assert IsStep(config, q[j], q[j + 1], world(mid + j));
      }
    }
    assert PathBetween(config, world, path, s, u, from, end);
  }

  lemma TwoSteps(config: Config, world: nat -> Choice, s: State, t: State, u: State, n: nat)
    requires t == Work(config, s, world(n)) && u == Work(config, t, world(n + 1))
    ensures Works(config, world, s, u, n, n + 2)
  {
    OneStep(config, world, s, t, n);
    OneStep(config, world, t, u, n + 1);
    Chain(config, world, s, t, u, n, n + 1, n + 2);
  }

  function Labels(world: nat -> Choice, n: nat): seq<Label> {
    if n == 0 then [] else Labels(world, n - 1) + [Worker(world(n - 1))]
  }

  lemma RunStep(config: Config, run: seq<Label>, l: Label)
    ensures After(config, run + [l]) == Step(config, After(config, run), l)
  {
    assert (run + [l])[..|run|] == run;
  }

  lemma {:induction false} PathIsRun(config: Config, world: nat -> Choice, path: seq<State>, run: seq<Label>, n: nat)
    requires IsPath(config, world, path, 0) && n < |path| && path[0] == After(config, run)
    ensures path[n] == After(config, run + Labels(world, n))
  {
    if n == 0 {
      assert run + [] == run;
    } else {
      var before := run + Labels(world, n - 1);
      PathIsRun(config, world, path, run, n - 1);
      assert IsStep(config, path[n - 1], path[n - 1 + 1], world(0 + (n - 1)));
      RunStep(config, before, Worker(world(n - 1)));
      assert run + Labels(world, n) == before + [Worker(world(n - 1))];
    }
  }

  /** What the object's worker does from a state that a run reaches is reached by a run. */
  lemma WorksIsRun(config: Config, world: nat -> Choice, run: seq<Label>, t: State, n: nat)
    requires Works(config, world, After(config, run), t, 0, n)
    ensures t == After(config, run + Labels(world, n))
  {
    var path :| PathBetween(config, world, path, After(config, run), t, 0, n);
    PathIsRun(config, world, path, run, n);
  }

  class Node {
    const config: Config
    var ready: bool
    var connections: nat
    var lastCommand: nat
    var pending: Option<Command>
    var open: bool
    var statuses: set<Status>
    ghost var pc: Pc
    ghost var source: nat
    ghost var resets: nat
    ghost var accepted: seq<Acceptance>
    ghost var written: seq<Written>
    ghost var log: Log

    ghost function State(): State
      reads this
    {
      var ticket := if pending.None? then None else Some(Ticket(pending.value, source));
      Driver.State(ready, connections, lastCommand, ticket, open, pc, None, resets, accepted, written, View(log, statuses))
    }

    constructor (config: Config)
      ensures State() == INITIAL && this.config == config
    {
      this.config := config;
      ready, connections, lastCommand, pending, open, statuses := false, 0, 0, None, false, {};
      pc, source, resets, accepted, written, log := Loop, 0, 0, [], [], [];
    }

    /** `receive_command`, not interrupted. */
    method ReceiveCommand(c: Command)
      modifies this`pending, this`source, this`accepted
      ensures State() == Step(config, old(State()), Receive(c))
      ensures pending == if ready && DriverOutcomes.Fit(config, c) then Some(c) else old(pending)
    {
      DriverOutcomes.FitIsAcceptable(config, c);
      if c.request.mode > MODE_SCISSOR || c.id == 0 || (c.request.automaticRelease && !config.allowRelease) || !ready {
        return;
      }
      pending := Some(c);
      source := |accepted|;
      accepted := accepted + [Acceptance(c, connections, resets, resets)];
    }

    method PublishStatus(connected: bool, device: Device)
      modifies this`statuses
      ensures statuses == old(statuses) + {Status(connected, connections % WRAP, lastCommand, device)}
    {
      statuses := statuses + {Status(connected, connections % WRAP, lastCommand, device)};
    }

    /** The stores that lock commands out. */
    method LockOut(world: nat -> Choice, n: nat)
      requires pc == MarkReady
      modifies this`ready, this`lastCommand, this`pc
      ensures Works(config, world, old(State()), State(), n, n + 2)
      ensures pc == MarkPending && !ready && lastCommand == 0
    {
      ready := false;
      pc := MarkLast;
      ghost var t := State();
      lastCommand := 0;
      pc := MarkPending;
      TwoSteps(config, world, old(State()), t, State(), n);
    }

    /** The locked section that drops the pending command. */
    method EmptySlot(world: nat -> Choice, n: nat)
      requires pc == MarkPending
      modifies this`pending, this`pc, this`resets
      ensures Works(config, world, old(State()), State(), n, n + 1)
      ensures pc == MarkPublish && pending == None
    {
      pending := None;
      resets := resets + 1;
      pc := MarkPublish;
      OneStep(config, world, old(State()), State(), n);
    }

    method PublishDown(world: nat -> Choice, n: nat)
      requires pc == MarkPublish
      modifies this`statuses, this`pc
      ensures Works(config, world, old(State()), State(), n, n + 1)
      ensures pc == Loop && statuses == old(statuses) + {Status(false, connections % WRAP, lastCommand, ZERO_DEVICE)}
    {
      PublishStatus(false, ZERO_DEVICE);
      pc := Loop;
      OneStep(config, world, old(State()), State(), n);
    }

    /** The pending command is dropped, and a status published after it. */
    method DropPending(world: nat -> Choice, n: nat)
      requires pc == MarkPending
      modifies this`pending, this`statuses, this`pc, this`resets
      ensures Works(config, world, old(State()), State(), n, n + 2)
      ensures pc == Loop && pending == None
      ensures statuses == old(statuses) + {Status(false, connections % WRAP, lastCommand, ZERO_DEVICE)}
    {
      ghost var s := State();
      EmptySlot(world, n);
      ghost var t := State();
      PublishDown(world, n + 1);
      Chain(config, world, s, t, State(), n, n + 1, n + 2);
    }

    /** `mark_disconnected`: commands are locked out before the pending one is dropped. */
    method MarkDisconnected(world: nat -> Choice, n: nat)
      requires pc == MarkReady
      modifies this`ready, this`lastCommand, this`pending, this`statuses, this`pc, this`resets
      ensures Works(config, world, old(State()), State(), n, n + 4)
      ensures pc == Loop && !ready && lastCommand == 0 && pending == None
      ensures statuses == old(statuses) + {Status(false, connections % WRAP, 0, ZERO_DEVICE)}
    {
      ghost var s := State();
      LockOut(world, n);
      ghost var t := State();
      DropPending(world, n + 2);
      Chain(config, world, s, t, State(), n, n + 2, n + 4);
    }

    /** What `run` does about a failed transaction. */
    method Disconnect(world: nat -> Choice, n: nat)
      requires pc == Closing
      modifies this
      ensures Works(config, world, old(State()), State(), n, n + 5)
      ensures pc == Loop && !open && !ready && pending == None
    {
      open := false;
      log := log + [Closed(connections)];
      pc := MarkReady;
      ghost var t := State();
      OneStep(config, world, old(State()), t, n);
      MarkDisconnected(world, n + 1);
      Chain(config, world, old(State()), t, State(), n, n + 1, n + 5);
    }

    /** Opening the connection. */
    method Connect(world: nat -> Choice, n: nat)
      requires pc == Loop && !open && config.configured && world(n).ok && !world(n).stop
      modifies this`ready, this`connections, this`lastCommand, this`open, this`log, this`pc
      ensures Works(config, world, old(State()), State(), n, n + 3)
      ensures pc == Take && open && !ready && lastCommand == 0
      ensures connections == old(connections) + 1 && log == old(log) + [Opened(connections)]
    {
      ghost var s := State();
      connections := connections + 1;
      log := log + [Opened(connections)];
      open := true;
      pc := ResetReady;
      ghost var t := State();
      OneStep(config, world, s, t, n);
      StartAfresh(world, n + 1);
      Chain(config, world, s, t, State(), n, n + 1, n + 3);
    }

    method StartAfresh(world: nat -> Choice, n: nat)
      requires pc == ResetReady
      modifies this`ready, this`lastCommand, this`pc
      ensures Works(config, world, old(State()), State(), n, n + 2)
      ensures pc == Take && !ready && lastCommand == 0
    {
      ready := false;
      pc := ResetLast;
      ghost var t := State();
      lastCommand := 0;
      pc := Take;
      TwoSteps(config, world, old(State()), t, State(), n);
    }

    /** Takes the pending command, if commands are let in. */
    method TakePending(world: nat -> Choice, n: nat) returns (command: Option<Command>)
      requires pc == Take
      modifies this`pending, this`pc
      ensures Works(config, world, old(State()), State(), n, n + 1)
      ensures command == if ready then old(pending) else None
      ensures pc == if command.Some? then Write(Ticket(command.value, source)) else Read
    {
      command := None;
      if ready {
        command, pending := pending, None;
      }
      pc := if command.Some? then Write(Ticket(command.value, source)) else Read;
      OneStep(config, world, old(State()), State(), n);
    }

    /** Packs and writes the command that was taken; false when either throws. */
    method WriteTaken(c: Command, world: nat -> Choice, n: nat) returns (ok: bool)
      requires pc == Write(Ticket(c, source))
      modifies this`written, this`log, this`pc
      ensures Works(config, world, old(State()), State(), n, n + 1)
      ensures pc == if ok then StoreLast(c.id) else Closing
      ensures ok ==> log == old(log) + [Applied(connections, c)]
    {
      var image := PackCommand(c.request);
      ok := image.Success? && world(n).ok;
      pc := if ok then StoreLast(c.id) else Closing;
      if image.Success? {
        written := written + [Written(source, |log|)];
        log := log + [if ok then Applied(connections, c) else Attempted(connections, c)];
      }
      OneStep(config, world, old(State()), State(), n);
    }

    method StoreLastCommand(id: nat, world: nat -> Choice, n: nat)
      requires pc == StoreLast(id)
      modifies this`lastCommand, this`pc
      ensures Works(config, world, old(State()), State(), n, n + 1)
      ensures pc == Read && lastCommand == id
    {
      lastCommand := id;
      pc := Read;
      OneStep(config, world, old(State()), State(), n);
    }

    /** Reads a status, publishes it and lets commands in; false when the read throws. */
    method ReadAndPublish(world: nat -> Choice, n: nat) returns (n': nat, ok: bool)
      requires pc == Read
      modifies this`log, this`pc, this`statuses, this`ready
      ensures n < n' && Works(config, world, old(State()), State(), n, n')
      ensures if ok then pc == Loop && ready else pc == Closing
      ensures ok ==> statuses == old(statuses) + {Status(true, connections % WRAP, lastCommand, world(n).device)}
    {
      ghost var s := State();
      ok := world(n).ok;
      if !ok {
        pc := Closing;
        OneStep(config, world, s, State(), n);
        return n + 1, ok;
      }
      log := log + [Sampled(connections, world(n).device)];
      pc := Publish(world(n).device);
      ghost var t := State();
      OneStep(config, world, s, t, n);
      PublishRead(world(n).device, world, n + 1);
      Chain(config, world, s, t, State(), n, n + 1, n + 3);
      n' := n + 3;
    }

    method PublishRead(device: Device, world: nat -> Choice, n: nat)
      requires pc == Publish(device)
      modifies this`pc, this`statuses, this`ready
      ensures Works(config, world, old(State()), State(), n, n + 2)
      ensures pc == Loop && ready
      ensures statuses == old(statuses) + {Status(true, connections % WRAP, lastCommand, device)}
    {
      ghost var s := State();
      PublishUp(device, world, n);
      ghost var t := State();
      LetIn(world, n + 1);
      Chain(config, world, s, t, State(), n, n + 1, n + 2);
    }

    method PublishUp(device: Device, world: nat -> Choice, n: nat)
      requires pc == Publish(device)
      modifies this`pc, this`statuses
      ensures Works(config, world, old(State()), State(), n, n + 1)
      ensures pc == SetReady && statuses == old(statuses) + {Status(true, connections % WRAP, lastCommand, device)}
    {
      PublishStatus(true, device);
      pc := SetReady;
      OneStep(config, world, old(State()), State(), n);
    }

    method LetIn(world: nat -> Choice, n: nat)
      requires pc == SetReady
      modifies this`pc, this`ready
      ensures Works(config, world, old(State()), State(), n, n + 1)
      ensures pc == Loop && ready
    {
      ready := true;
      pc := Loop;
      OneStep(config, world, old(State()), State(), n);
    }

    /** The command part of the `try` block. */
    method WritePending(world: nat -> Choice, n: nat) returns (n': nat, ok: bool)
      requires pc == Take
      modifies this
      ensures n < n' && Works(config, world, old(State()), State(), n, n')
      ensures pc == if ok then Read else Closing
      ensures ready == old(ready) && (ready ==> pending == None)
      ensures ok && ready && old(pending).Some? ==>
                lastCommand == old(pending).value.id && log == old(log) + [Applied(connections, old(pending).value)]
      ensures !ready || old(pending).None? ==> ok && log == old(log)
    {
      ghost var s := State();
      var command := TakePending(world, n);
      ghost var t := State();
      if command.None? {
        return n + 1, true;
      }
      ok := WriteTaken(command.value, world, n + 1);
      ghost var u := State();
      Chain(config, world, s, t, u, n, n + 1, n + 2);
      if ok {
        StoreLastCommand(command.value.id, world, n + 2);
        Chain(config, world, s, u, State(), n, n + 2, n + 3);
      }
      n' := if ok then n + 3 else n + 2;
    }

    /** The rest of the `try` block and its handler. */
    method ReadOrDisconnect(written: bool, world: nat -> Choice, n: nat) returns (n': nat)
      requires pc == if written then Read else Closing
      modifies this
      ensures n < n' && Works(config, world, old(State()), State(), n, n')
      ensures pc == Loop
    {
      if !written {
        Disconnect(world, n);
        return n + 5;
      }
      ghost var s := State();
      var ok;
      n', ok := ReadAndPublish(world, n);
      if !ok {
        ghost var t := State();
        Disconnect(world, n');
        Chain(config, world, s, t, State(), n, n', n' + 5);
        n' := n' + 5;
      }
    }

    /** The `try` block of the loop and its handler. */
    method Cycle(world: nat -> Choice, n: nat) returns (n': nat)
      requires pc == Take
      modifies this
      ensures n < n' && Works(config, world, old(State()), State(), n, n')
      ensures pc == Loop
    {
      ghost var s := State();
      var m, ok := WritePending(world, n);
      ghost var t := State();
      n' := ReadOrDisconnect(ok, world, m);
      Chain(config, world, s, t, State(), n, m, n');
    }

    /** `run`, for at most `rounds` times around the loop. */
    method Run(world: nat -> Choice, rounds: nat) returns (n: nat)
      requires pc == Loop
      modifies this
      ensures Works(config, world, old(State()), State(), 0, n)
      ensures pc == Loop || (pc == Stopped && !ready && !open)
    {
      ghost var s := State();
      n := 0;
      NoStep(config, world, s, n);
      var round := 0;
      while round < rounds && !world(n).stop
        invariant pc == Loop && Works(config, world, s, State(), 0, n)
        decreases rounds - round
      {
        round := round + 1;
        ghost var t := State();
        var m := n;
        n := Round(world, m);
        Chain(config, world, s, t, State(), 0, m, n);
      }
      if round < rounds {
        ghost var t := State();
        Shutdown(world, n);
        Chain(config, world, s, t, State(), 0, n, n + 2);
        n := n + 2;
      }
    }

    /** Once around the loop. */
    method Round(world: nat -> Choice, n: nat) returns (n': nat)
      requires pc == Loop && !world(n).stop
      modifies this
      ensures Works(config, world, old(State()), State(), n, n')
      ensures n < n' && pc == Loop
    {
      if !open && !(config.configured && world(n).ok) {
        NotConnected(world, n);
        return n + 5;
      }
      ghost var s := State();
      var m;
      if !open {
        Connect(world, n);
        m := n + 3;
      } else {
        pc := Take;
        m := n + 1;
        OneStep(config, world, s, State(), n);
      }
      ghost var t := State();
      n' := Cycle(world, m);
      Chain(config, world, s, t, State(), n, m, n');
    }

    /** A round in which no connection came about. */
    method NotConnected(world: nat -> Choice, n: nat)
      requires pc == Loop && !open && !(config.configured && world(n).ok) && !world(n).stop
      modifies this
      ensures Works(config, world, old(State()), State(), n, n + 5)
      ensures pc == Loop && !open && !ready && log == old(log)
    {
      pc := MarkReady;
      ghost var t := State();
      OneStep(config, world, old(State()), t, n);
      MarkDisconnected(world, n + 1);
      Chain(config, world, old(State()), t, State(), n, n + 1, n + 5);
    }

    /** The end of `run`, after a stop request. */
    method Shutdown(world: nat -> Choice, n: nat)
      requires pc == Loop && world(n).stop
      modifies this
      ensures Works(config, world, old(State()), State(), n, n + 2)
      ensures pc == Stopped && !ready && !open
    {
      ghost var s := State();
      CloseDown(world, n);
      ghost var t := State();
      LockForGood(world, n + 1);
      Chain(config, world, s, t, State(), n, n + 1, n + 2);
    }

    method CloseDown(world: nat -> Choice, n: nat)
      requires pc == Loop && world(n).stop
      modifies this`open, this`log, this`pc
      ensures Works(config, world, old(State()), State(), n, n + 1)
      ensures pc == Quit && !open
    {
      if open {
        log := log + [Closed(connections)];
      }
      open := false;
      pc := Quit;
      OneStep(config, world, old(State()), State(), n);
    }

    method LockForGood(world: nat -> Choice, n: nat)
      requires pc == Quit
      modifies this`ready, this`pc
      ensures Works(config, world, old(State()), State(), n, n + 1)
      ensures pc == Stopped && !ready
    {
      ready := false;
      pc := Stopped;
      OneStep(config, world, old(State()), State(), n);
    }
  }
}
