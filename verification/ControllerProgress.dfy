/**
 * No operation of the controller is stuck: whenever none is under way and the status at hand is of the connection
 * the gripper is on, there is a way for each of them to be written, answered and reported as a success.
 */
module ControllerProgress {
  import opened Backend
  import opened Controller
  import opened ControllerHistory
  import opened ControllerOutcomes
  import opened ControllerTheorems
  import opened ControllerWrap
  import opened Messages
  import opened Wrappers

  /** The log ends on this connection, and it is not closed. */
  predicate OpenOn(log: Log, connection: nat) {
    && log != [] && !log[|log| - 1].Closed? && log[|log| - 1].connection == connection
    && connection < WRAP
  }

  // ---------------------------------------------------------------- the gripper's part

  /** What a gripper in a state does with a command: takes it, and is read. */
  function Obeyed(v: View, connection: nat, c: Command, d: Device): View {
    View(v.log + [Applied(connection, c)] + [Sampled(connection, d)], v.statuses + {Status(true, connection, c.id, d)})
  }

  lemma LastFollows(log: Log, connection: nat, e: Event)
    requires Ordered(log) && OpenOn(log, connection)
    requires e.connection == connection && !e.Opened? && !e.Closed?
    ensures Ordered(log + [e]) && OpenOn(log + [e], connection)
  {
    forall k | 0 <= k < |log|
      ensures Follows(log[k], e)
    {
      if k < |log| - 1 {
        assert Follows(log[k], log[|log| - 1]);
      }
    }
    Appended(log, e);
  }

  lemma ObeyedStep(v: View, sent: set<Command>, connection: nat, c: Command, d: Device)
    requires Contract(v, sent) && OpenOn(v.log, connection) && c in sent && c.id != 0
    ensures BackendStep(v, sent, Obeyed(v, connection, c, d)) && OpenOn(Obeyed(v, connection, c, d).log, connection)
  {
    var v1 := v.(log := v.log + [Applied(connection, c)]);
    var v2 := v1.(log := v1.log + [Sampled(connection, d)]);
    var status := Status(true, connection, c.id, d);
    LastFollows(v.log, connection, Applied(connection, c));
    ContractAppended(v, sent, Applied(connection, c));
    LastFollows(v1.log, connection, Sampled(connection, d));
    ContractAppended(v1, sent, Sampled(connection, d));
    TracksWrite(v.log, c, connection);
    TracksRead(v1.log, c.id, connection, d);
    ReadIsGenuine(v2.log, c.id, connection, d);
    assert connection % WRAP == connection;
    assert Genuine(status, v2.log);
    assert Obeyed(v, connection, c, d) == View(v2.log, v2.statuses + {status});
    forall s | s in v2.statuses + {status}
      ensures Genuine(s, v2.log)
    {
    }
    assert v.log <= v2.log;
  }

  // ---------------------------------------------------------------- the controller's part

  /** A thread about to take an id for its command, on the connection the log is open on. */
  ghost predicate Poised(s: System, id: nat, t: Thread) {
    && id in s.threads && s.threads[id] == t && !t.op.Stop? && !t.stopping
    && Contract(s.view, s.sent) && OpenOn(s.view.log, t.connection)
  }

  /** From the id to the wait. */
  lemma Publishes(run: seq<Label>, id: nat, t: Thread) returns (run': seq<Label>, t': Thread)
    requires Poised(After(run), id, t) && t.pc == Allocate && After(run).issued + 1 < WRAP
    ensures run <= run' && Poised(After(run'), id, t')
    ensures t'.pc == Wait && t'.op == t.op && t'.exchanges == t.exchanges && t'.connection == t.connection
    ensures t'.command == Command(After(run).issued + 1, t.command.request)
    ensures t'.command in After(run').sent && After(run').issued == After(run).issued + 1
  {
    hide Contract, OpenOn;
    run' := Then(run, Run(id, CALM));
    run' := Then(run', Run(id, CALM));
    run' := Then(run', Run(id, CALM));
    t' := After(run').threads[id];
    SentMore(After(run).view, After(run).sent, t'.command);
  }

  lemma SentMore(v: View, sent: set<Command>, c: Command)
    requires Contract(v, sent)
    ensures Contract(v, sent + {c})
  {
  }

  /** The gripper takes the command, and a status that reports `d` arrives. */
  lemma IsAnswered(run: seq<Label>, id: nat, t: Thread, d: Device) returns (run': seq<Label>)
    requires Poised(After(run), id, t) && t.pc == Wait && t.command in After(run).sent && t.command.id != 0
    ensures run <= run' && Poised(After(run'), id, t) && After(run').issued == After(run).issued
    ensures After(run').current == Some(Status(true, t.connection, t.command.id, d))
  {
    var s := After(run);
    ObeyedStep(s.view, s.sent, t.connection, t.command, d);
    run' := Then(run, Work(Obeyed(s.view, t.connection, t.command, d)));
    run' := Then(run', Deliver(Status(true, t.connection, t.command.id, d)));
  }

  /** A report that finishes the goal of a motion. */
  function Finishing(g: Goal): Device {
    Device(true, g.mode, true, 3, 3, 0,
           Reading(0, g.a.position, 0, 0), Reading(0, g.b.position, 0, 0),
           Reading(0, g.c.position, 0, 0), Reading(0, g.scissor.position, 0, 0))
  }

  const CLEARED := Device(false, 0, false, 0, 0, 0, ZERO_READING, ZERO_READING, ZERO_READING, ZERO_READING)

  function LastReport(op: Operation): Device {
    match op
    case Activate(mode) => CLEARED.(activated := true, mode := mode, initialization := 3)
    case Motion(g) => Finishing(g)
    case _ => CLEARED
  }

  /** The last wait of an operation ends with success, and the flag is given back. */
  lemma Finishes(run: seq<Label>, id: nat, t: Thread) returns (run': seq<Label>)
    requires Poised(After(run), id, t) && t.pc == Wait && |t.exchanges| == (if t.op.Activate? then 1 else 0)
    requires After(run).current == Some(Status(true, t.connection, t.command.id, LastReport(t.op)))
    ensures run <= run' && Finished(After(run'), id, t.op, Succeeded)
  {
    var s := After(run);
    match t.op {
      case Activate(_) => ReadyLook(s, id, CALM);
      case Deactivate => DeactivateLook(s, id, CALM);
      case Motion(g) => MotionLook(s, id, g, CALM);
    }
    run' := Then(run, Run(id, CALM));
    assert After(run').threads[id].op == t.op;
    run' := Then(run', Run(id, CALM));
  }

  /** A last command, written, answered and reported. */
  lemma Concludes(run: seq<Label>, id: nat, t: Thread) returns (run': seq<Label>)
    requires Poised(After(run), id, t) && t.pc == Allocate && After(run).issued + 1 < WRAP
    requires |t.exchanges| == (if t.op.Activate? then 1 else 0)
    ensures run <= run' && Finished(After(run'), id, t.op, Succeeded)
  {
    var u;
    run', u := Publishes(run, id, t);
    run' := IsAnswered(run', id, u, LastReport(t.op));
    run' := Finishes(run', id, u);
  }

  /** The clear command of `activate`, written and answered. */
  lemma Resets(run: seq<Label>, id: nat, t: Thread) returns (run': seq<Label>, t': Thread)
    requires Poised(After(run), id, t) && t.pc == Allocate && After(run).issued + 1 < WRAP
    requires t.op.Activate? && t.exchanges == []
    ensures run <= run' && Poised(After(run'), id, t') && t'.pc == Allocate && t'.op == t.op && |t'.exchanges| == 1
    ensures After(run').issued == After(run).issued + 1
  {
    var u;
    run', u := Publishes(run, id, t);
    run' := IsAnswered(run', id, u, CLEARED);
    ResetLook(After(run'), id, CALM);
    run' := Then(run', Run(id, CALM));
    t' := After(run').threads[id];
  }

  lemma Enter(run: seq<Label>, id: nat, op: Operation) returns (run': seq<Label>, t: Thread)
    requires Contract(After(run).view, After(run).sent)
    requires id !in After(run).threads && !After(run).busy && !op.Stop? && (op.Motion? ==> op.goal.mode <= 3)
    requires MayStart(op, After(run).current, false)
    requires OpenOn(After(run).view.log, After(run).current.value.connection)
    ensures run <= run' && Poised(After(run'), id, t) && t.pc == Allocate && t.op == op && t.exchanges == []
    ensures After(run').issued == After(run).issued
  {
    run' := Then(run, Start(id, op));
    BeginLook(After(run'), id, CALM);
    run' := Then(run', Run(id, CALM));
    SnapshotLook(After(run'), id, CALM);
    run' := Then(run', Run(id, CALM));
    t := After(run').threads[id];
  }

  /**
   * After any run that leaves the controller idle with a status of the gripper's open connection, and for a motion
   * with the gripper ready, any operation asked for next can be carried to its success.
   */
  lemma OperationCanSucceed(run: seq<Label>, id: nat, op: Operation) returns (run': seq<Label>)
    requires After(run).issued + 2 < WRAP
    requires id !in After(run).threads && !After(run).busy && !op.Stop? && (op.Motion? ==> op.goal.mode <= 3)
    requires MayStart(op, After(run).current, false)
    requires OpenOn(After(run).view.log, After(run).current.value.connection)
    ensures run <= run' && Finished(After(run'), id, op, Succeeded)
  {
    AfterInvariant(run);
    var t;
    run', t := Enter(run, id, op);
    if op.Activate? {
      run', t := Resets(run', id, t);
    }
    run' := Concludes(run', id, t);
  }
}
