/**
 * What the controller may assume of whatever executes its commands: the Modbus driver with a real
 * gripper behind it, or the simulator.
 *
 * A backend is seen through two growing things: the log of what happened at the device and the set of
 * statuses it has published. Statuses may reach the controller late, in any order, again, or never.
 */
module Backend {
  import opened Messages

  /** What happened at the device. A write that failed may or may not have reached it. */
  datatype Event =
    | Opened(connection: nat)
    | Applied(connection: nat, command: Command)
    | Attempted(connection: nat, command: Command)
    | Sampled(connection: nat, device: Device)
    | Closed(connection: nat)

  type Log = seq<Event>

  predicate IsWrite(e: Event) {
    e.Applied? || e.Attempted?
  }

  /** Connections follow one another: each is opened once, and nothing follows its closing. */
  predicate Follows(e: Event, f: Event) {
    && e.connection <= f.connection
    && (f.Opened? || e.Closed? ==> e.connection < f.connection)
  }

  ghost predicate Ordered(log: Log) {
    forall i, j :: 0 <= i < j < |log| ==> Follows(log[i], log[j])
  }

  /** Nothing but reads of one connection. */
  ghost predicate Quiet(log: Log, from: nat, to: nat, connection: nat) {
    forall k :: from <= k < to <= |log| ==> log[k].Sampled? && log[k].connection == connection
  }

  /** The write at `w` put a command with this id in effect, and still had it in effect at `r`. */
  ghost predicate InEffect(log: Log, w: nat, r: nat, id: nat) {
    && w < r < |log|
    && log[w].Applied?
    && log[w].command.id == id
    && log[w].connection == log[r].connection
    && Quiet(log, w + 1, r, log[r].connection)
  }

  ghost predicate Untouched(log: Log, r: nat)
    requires r < |log|
  {
    forall k :: 0 <= k < r && log[k].connection == log[r].connection ==> !IsWrite(log[k])
  }

  /** The status was read at `r`, and the command it names is the last one applied before that. */
  ghost predicate ReadAt(s: Status, log: Log, r: nat) {
    && r < |log|
    && log[r] == Sampled(log[r].connection, s.device)
    && s.connection == log[r].connection % WRAP
    && (if s.lastCommand == 0 then Untouched(log, r) else exists w: nat :: InEffect(log, w, r, s.lastCommand))
  }

  ghost predicate Genuine(s: Status, log: Log) {
    s.connected ==> exists r: nat :: ReadAt(s, log, r)
  }

  datatype View = View(log: Log, statuses: set<Status>)

  const START := View([], {})

  /** Only commands that were sent are written, and every connected status tells the truth. */
  ghost predicate Contract(v: View, sent: set<Command>) {
    && Ordered(v.log)
    && (forall k :: 0 <= k < |v.log| && IsWrite(v.log[k]) ==> v.log[k].command in sent)
    && (forall s :: s in v.statuses ==> Genuine(s, v.log))
  }

  /** Whatever a backend does, it only adds to the past, and the contract holds again. */
  ghost predicate BackendStep(v: View, sent: set<Command>, v': View) {
    && v.log <= v'.log
    && v.statuses <= v'.statuses
    && Contract(v', sent)
  }

  /** No connection number has outgrown the 64 bits it is published in. */
  ghost predicate Narrow(log: Log) {
    forall k :: 0 <= k < |log| ==> log[k].connection < WRAP
  }

  lemma ReadAtStays(s: Status, log: Log, r: nat, log': Log)
    requires ReadAt(s, log, r) && log <= log'
    ensures ReadAt(s, log', r)
  {
    if s.lastCommand != 0 {
      var w: nat :| InEffect(log, w, r, s.lastCommand);
      assert InEffect(log', w, r, s.lastCommand);
    }
  }

  lemma GenuineStays(s: Status, log: Log, log': Log)
    requires Genuine(s, log) && log <= log'
    ensures Genuine(s, log')
  {
    if s.connected {
      var r: nat :| ReadAt(s, log, r);
      ReadAtStays(s, log, r, log');
    }
  }

  // ---------------------------------------------------------------- what a backend has to keep track of

  ghost predicate NoWrites(log: Log, connection: nat) {
    forall k :: 0 <= k < |log| && log[k].connection == connection ==> !IsWrite(log[k])
  }

  /** The id is of the command in effect on the connection, 0 if none was written. */
  ghost predicate Tracks(log: Log, id: nat, connection: nat) {
    if id == 0 then NoWrites(log, connection)
    else
      exists w: nat ::
        && w < |log| && log[w].Applied? && log[w].command.id == id && log[w].connection == connection
        && Quiet(log, w + 1, |log|, connection)
  }

  // ---------------------------------------------------------------- one event more

  lemma Appended(log: Log, e: Event)
    requires Ordered(log) && (forall k :: 0 <= k < |log| ==> Follows(log[k], e))
    ensures Ordered(log + [e])
  {
  }

  /** Adding an event keeps the contract. */
  lemma ContractAppended(v: View, sent: set<Command>, e: Event)
    requires Contract(v, sent) && Ordered(v.log + [e]) && (IsWrite(e) ==> e.command in sent)
    ensures Contract(v.(log := v.log + [e]), sent)
  {
    var log' := v.log + [e];
    forall s | s in v.statuses
      ensures Genuine(s, log')
    {
      GenuineStays(s, v.log, log');
    }
  }

  /** A read keeps the command in effect. */
  lemma TracksRead(log: Log, id: nat, connection: nat, device: Device)
    requires Tracks(log, id, connection)
    ensures Tracks(log + [Sampled(connection, device)], id, connection)
  {
    if id != 0 {
      var w: nat :| w < |log| && log[w].Applied? && log[w].command.id == id && log[w].connection == connection
                    && Quiet(log, w + 1, |log|, connection);
      var log' := log + [Sampled(connection, device)];
      assert log'[w] == log[w] && Quiet(log', w + 1, |log'|, connection);
    }
  }

  lemma TracksWrite(log: Log, c: Command, connection: nat)
    requires c.id != 0
    ensures Tracks(log + [Applied(connection, c)], c.id, connection)
  {
    var log' := log + [Applied(connection, c)];
    assert log'[|log|] == Applied(connection, c) && Quiet(log', |log| + 1, |log'|, connection);
  }

  /** A status published after a read, naming the command in effect, is genuine. */
  lemma ReadIsGenuine(log: Log, id: nat, connection: nat, device: Device)
    requires Tracks(log, id, connection) && log != [] && log[|log| - 1] == Sampled(connection, device)
    ensures Genuine(Status(true, connection % WRAP, id, device), log)
  {
    var r := |log| - 1;
    var status := Status(true, connection % WRAP, id, device);
    if id != 0 {
      var w: nat :| w < |log| && log[w].Applied? && log[w].command.id == id && log[w].connection == connection
                    && Quiet(log, w + 1, |log|, connection);
      assert InEffect(log, w, r, id);
    }
    assert ReadAt(status, log, r);
  }
}
