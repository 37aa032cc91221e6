/**
 * The controller node's shared fields and the methods its threads call, each run without interruption;
 * they are shown to be the atomic sections of the step system, and the wait loop a run of its polls.
 */
module ControllerNode {
  import opened Backend
  import opened Controller
  import opened ControllerOutcomes
  import opened Messages
  import opened Wrappers

  /** What a waiting thread finds when it has the status lock again. */
  datatype Look = Look(current: Option<Status>, choice: Choice)

  /** The thread after a number of iterations of its wait loop. */
  function Polls(t: Thread, looks: seq<Look>): Thread {
    if looks == [] then t
    else
      var u := Polls(t, looks[..|looks| - 1]);
      if u.pc == Wait then Poll(u, looks[|looks| - 1].current, looks[|looks| - 1].choice) else u
  }

  datatype Waited = GoesOn | ReturnsFalse | ReturnsTrue

  /** What `wait_for_status` leaves of a thread: the status it saw last, and how it goes on. */
  function Resumed(t: Thread, seen: Status, waited: Waited): Thread {
    var u := t.(seen := seen);
    match waited
    case GoesOn => u
    case ReturnsFalse => GiveUp(u)
    case ReturnsTrue => Answer(u)
  }

  lemma PollsMore(t: Thread, looks: seq<Look>, k: nat)
    requires k < |looks|
    ensures Polls(t, looks[..k + 1]) ==
            var u := Polls(t, looks[..k]); if u.pc == Wait then Poll(u, looks[k].current, looks[k].choice) else u
  {
    assert looks[..k + 1][..k] == looks[..k];
  }

  /** One iteration of the loop in `wait_for_status`. */
  method LookOnce(t: Thread, seen: Status, look: Look) returns (seen': Status, waited: Waited)
    requires t.pc == Wait
    ensures Poll(t.(seen := seen), look.current, look.choice) == Resumed(t, seen', waited)
  {
    seen' := seen;
    if look.choice.shutdown {
      return seen', ReturnsFalse;
    }
    if t.op.Motion? && look.choice.cancelled {
      return seen', ReturnsFalse;
    }
    if look.current.Some? {
      seen' := look.current.value;
      if !seen'.connected {
        return seen', ReturnsFalse;
      }
      if seen'.connection != t.connection {
        return seen', ReturnsFalse;
      }
      if look.choice.stale {
        return seen', ReturnsFalse;
      }
      if seen'.lastCommand == t.command.id && Awaited(t.op, |t.exchanges|, seen'.device) {
        return seen', ReturnsTrue;
      }
    }
    if look.choice.late {
      return seen', ReturnsFalse;
    }
    return seen', GoesOn;
  }

  /** `wait_for_status`, over the looks that the thread gets. */
  method WaitForStatus(t: Thread, looks: seq<Look>) returns (seen: Status, waited: Waited, n: nat)
    requires t.pc == Wait
    ensures n <= |looks| && Polls(t, looks[..n]) == Resumed(t, seen, waited)
    ensures waited == GoesOn ==> n == |looks|
  {
    seen, waited, n := t.seen, GoesOn, 0;
    while n < |looks| && waited == GoesOn
      invariant n <= |looks| && Polls(t, looks[..n]) == Resumed(t, seen, waited)
    {
      PollsMore(t, looks, n);
      seen, waited := LookOnce(t, seen, looks[n]);
      n := n + 1;
    }
  }

  class Node {
    var busy: bool
    var current: Option<Status>
    var lastCommand: Option<Command>
    var issued: nat
    var sent: set<Command>
    var published: seq<Publication>

    /** The system these fields are part of. */
    ghost function In(threads: map<nat, Thread>, view: View): System
      reads this
    {
      System(busy, current, lastCommand, issued, sent, published, threads, view)
    }

    constructor ()
      ensures In(map[], START) == INITIAL
    {
      busy, current, lastCommand, issued, sent, published := false, None, None, 0, {}, [];
    }

    /** `receive_status`. */
    method ReceiveStatus(status: Status)
      modifies this`current
      ensures current == Some(status)
    {
      current := Some(status);
    }

    /** `current_status`; nothing unless a status is there, connected and recent. */
    method CurrentStatus(stale: bool) returns (status: Option<Status>)
      ensures status == if current.None? || !current.value.connected || stale then None else current
    {
      if current.None? {
        return None;
      }
      if !current.value.connected {
        return None;
      }
      if stale {
        return None;
      }
      status := current;
    }

    /** `begin_operation`: the flag is exchanged, not tested and set. */
    method BeginOperation() returns (entered: bool)
      modifies this`busy
      ensures entered == !old(busy) && busy
    {
      var before := busy;
      busy := true;
      entered := !before;
    }

    method EndOperation()
      modifies this`busy
      ensures !busy
    {
      busy := false;
    }

    /** `publish_command`, its three sections one after the other. */
    method PublishCommand(id: nat, request: Request, ghost threads: map<nat, Thread>, ghost view: View, ghost t: Thread)
      returns (command: Command)
      requires t.pc == Allocate && t.command.request == request
      modifies this`lastCommand, this`issued, this`sent, this`published
      ensures command == Command(NextId(old(issued)), request)
      ensures var a := t.(pc := Store, command := command); var b := a.(pc := Send);
        In(threads, view) == Effect(Effect(Effect(old(In(threads, view)), id, t), id, a), id, b)
    {
      command := Command(NextId(issued), request);
      issued := issued + 1;
      lastCommand := Some(command);
      sent := sent + {command};
      published := published + [Publication(id, command)];
    }

    /** `stop`: it takes no part in the exclusion. */
    method Stop(id: nat, stale: bool, ghost threads: map<nat, Thread>, ghost view: View) returns (success: bool)
      modifies this`lastCommand, this`issued, this`sent, this`published
      ensures busy == old(busy) && current == old(current)
      ensures success == (current.Some? && current.value.connected && !stale)
      ensures !success ==> In(threads, view) == old(In(threads, view))
      ensures success ==>
                var c := Command(NextId(old(issued)), StopRequest(old(lastCommand), current.value));
                && lastCommand == Some(c) && sent == old(sent) + {c} && published == old(published) + [Publication(id, c)]
                && issued == old(issued) + 1 && Holds(c.request, old(lastCommand), current.value.device)
    {
      var status := CurrentStatus(stale);
      if status.None? {
        return false;
      }
      var request;
      if lastCommand.Some? {
        request := lastCommand.value.request;
      } else {
        request := ZERO_REQUEST.(activate := status.value.device.activated, mode := status.value.device.mode);
      }
      request := request.(goTo := false, automaticRelease := false);
      ghost var t := NewThread(Operation.Stop).(pc := Allocate, command := Command(0, request));
      var command := PublishCommand(id, request, threads, view, t);
      success := true;
    }
  }
}
