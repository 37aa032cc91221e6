/**
 * Why the controller's theorems are about runs with fewer than 2^64 commands: the 64-bit counter gives
 * command 2^64 the id 0, which every status names that answers no command, and command 2^64 + 1 the id of
 * the first one; and a motion with either succeeds without being written.
 */
module ControllerWrap {
  import opened Backend
  import opened Controller
  import opened Messages
  import opened Wrappers

  const CALM := Choice(false, false, false, false)

  /** What the gripper reports throughout: ready, and at the position both motions ask for. */
  const DEVICE := ZERO_DEVICE.(activated := true, goTo := true, initialization := INITIALIZATION_READY, motion := MOTION_REACHED)

  const SLOW := Goal(MODE_BASIC, false, false, Axis(0, 1, 1), ZERO_AXIS, ZERO_AXIS, ZERO_AXIS)
  const FAST := Goal(MODE_BASIC, false, false, Axis(0, 2, 2), ZERO_AXIS, ZERO_AXIS, ZERO_AXIS)

  const FIRST := Command(1, MotionRequest(SLOW))
  const BEFORE := Status(true, 1, 0, DEVICE)
  const ANSWER := Status(true, 1, 1, DEVICE)

  const CONNECTED := View([Opened(1), Sampled(1, DEVICE)], {BEFORE})
  const MOVED := View([Opened(1), Sampled(1, DEVICE), Applied(1, FIRST), Sampled(1, DEVICE)], {BEFORE, ANSWER})

  lemma ConnectedStep()
    ensures BackendStep(START, {}, CONNECTED)
  {
    assert ReadAt(BEFORE, CONNECTED.log, 1);
  }

  lemma MovedStep()
    ensures BackendStep(CONNECTED, {FIRST}, MOVED)
  {
    assert MOVED.log == CONNECTED.log + [Applied(1, FIRST), Sampled(1, DEVICE)];
    assert ReadAt(BEFORE, MOVED.log, 1);
    assert InEffect(MOVED.log, 2, 3, 1);
    assert ReadAt(ANSWER, MOVED.log, 3);
  }

  lemma Then(run: seq<Label>, l: Label) returns (run': seq<Label>)
    ensures run' == run + [l] && After(run') == Step(After(run), l)
  {
    run' := run + [l];
    assert run'[..|run|] == run;
  }

  /** The controller has this status of this view, and nothing is under way. */
  ghost predicate Rests(s: System, next: nat, status: Status, view: View) {
    && !s.busy && s.current == Some(status) && status.connected && status.connection == 1 && status.device == DEVICE
    && s.view == view
    && (forall i :: i in s.threads ==> i < next)
  }

  /** The first motion, as thread 0, up to the moment it has its id. */
  lemma Allocates() returns (run: seq<Label>)
    ensures var s := After(run);
      && s.busy && s.current == Some(BEFORE) && s.issued == 1 && s.sent == {} && s.view == CONNECTED
      && s.threads.Keys == {0} && s.threads[0].pc == Store && s.threads[0].op == Motion(SLOW) && s.threads[0].connection == 1
      && s.threads[0].command == FIRST && s.threads[0].exchanges == [] && !s.threads[0].stopping
  {
    ConnectedStep();
    run := Then([], Work(CONNECTED));
    run := Then(run, Deliver(BEFORE));
    run := Then(run, Start(0, Motion(SLOW)));
    run := Then(run, Run(0, CALM));
    run := Then(run, Run(0, CALM));
    run := Then(run, Run(0, CALM));
  }

  /** The first motion up to its wait. */
  lemma Sends() returns (run: seq<Label>)
    ensures var s := After(run);
      && s.busy && s.current == Some(BEFORE) && s.issued == 1 && s.sent == {FIRST} && s.view == CONNECTED
      && s.threads.Keys == {0} && s.threads[0].pc == Wait && s.threads[0].op == Motion(SLOW) && s.threads[0].connection == 1
      && s.threads[0].command == FIRST && s.threads[0].exchanges == []
  {
    run := Allocates();
    run := Then(run, Run(0, CALM));
    run := Then(run, Run(0, CALM));
  }

  lemma FirstMotion() returns (run: seq<Label>)
    ensures Rests(After(run), 1, ANSWER, MOVED) && After(run).issued == 1
  {
    run := Sends();
    MovedStep();
    run := Then(run, Work(MOVED));
    run := Then(run, Deliver(ANSWER));
    run := Then(run, Run(0, CALM));
    run := Then(run, Run(0, CALM));
  }

  /** One `stop` takes one id. */
  lemma StopOnce(run: seq<Label>, n: nat, status: Status, view: View) returns (run': seq<Label>)
    requires Rests(After(run), n, status, view)
    ensures Rests(After(run'), n + 1, status, view) && After(run').issued == After(run).issued + 1
  {
    run' := Then(run, Start(n, Stop));
    run' := Then(run', Run(n, CALM));
    run' := Then(run', Run(n, CALM));
    run' := Then(run', Run(n, CALM));
    run' := Then(run', Run(n, CALM));
    run' := Then(run', Run(n, CALM));
    run' := Then(run', Run(n, CALM));
  }

  lemma {:induction false} StopOften(run: seq<Label>, n: nat, count: nat, status: Status, view: View) returns (run': seq<Label>)
    requires Rests(After(run), n, status, view)
    ensures Rests(After(run'), n + count, status, view) && After(run').issued == After(run).issued + count
    decreases count
  {
    run' := run;
    if count > 0 {
      run' := StopOnce(run, n, status, view);
      run' := StopOften(run', n + 1, count - 1, status, view);
    }
  }

  /** A motion up to its wait, with the id the counter gives it. */
  lemma SendsMotion(run: seq<Label>, id: nat, goal: Goal, status: Status, view: View) returns (run': seq<Label>)
    requires Rests(After(run), id, status, view) && goal.mode <= MODE_SCISSOR
    ensures var s := After(run');
      && s.issued == After(run).issued + 1 && s.view == view && s.current == Some(status)
      && id in s.threads && s.threads[id].op == Motion(goal) && s.threads[id].pc == Wait && s.threads[id].connection == 1
      && s.threads[id].command.id == NextId(After(run).issued) && s.threads[id].exchanges == []
  {
    run' := Then(run, Start(id, Motion(goal)));
    run' := Then(run', Run(id, CALM));
    run' := Then(run', Run(id, CALM));
    run' := Then(run', Run(id, CALM));
    run' := Then(run', Run(id, CALM));
    run' := Then(run', Run(id, CALM));
  }

  predicate SucceededAs(s: System, id: nat, goal: Goal) {
    id in s.threads && s.threads[id].op == Motion(goal) && s.threads[id].pc == Done && s.threads[id].outcome == Succeeded
  }

  /** A motion whose id the status at hand already names succeeds at once, with nothing written. */
  lemma OldStatusAccepted(run: seq<Label>, id: nat, goal: Goal, status: Status, view: View) returns (run': seq<Label>)
    requires Rests(After(run), id, status, view) && goal.mode <= MODE_SCISSOR && Requested(goal, DEVICE)
    requires status.lastCommand == NextId(After(run).issued)
    ensures var s := After(run'); s.issued == After(run).issued + 1 && s.view == view && SucceededAs(s, id, goal)
  {
    run' := SendsMotion(run, id, goal, status, view);
    run' := Then(run', Run(id, CALM));
    run' := Then(run', Run(id, CALM));
  }

  ghost predicate NeverWritten(log: Log, request: Request) {
    forall k :: 0 <= k < |log| && IsWrite(log[k]) ==> log[k].command.request != request
  }

  /** The motion after 2^64 commands succeeds without ever having been written: it has the id of the first one. */
  lemma OldAnswerAccepted() returns (run: seq<Label>, id: nat)
    ensures var s := After(run);
      s.issued == WRAP + 1 && SucceededAs(s, id, FAST) && NeverWritten(s.view.log, MotionRequest(FAST))
  {
    run := FirstMotion();
    run := StopOften(run, 1, WRAP - 1, ANSWER, MOVED);
    id := WRAP;
    assert NextId(WRAP) == 1;
    run := OldStatusAccepted(run, id, FAST, ANSWER, MOVED);
  }

  /** Connected, with nothing sent yet. */
  lemma Connects() returns (run: seq<Label>)
    ensures Rests(After(run), 0, BEFORE, CONNECTED) && After(run).issued == 0
  {
    ConnectedStep();
    run := Then([], Work(CONNECTED));
    run := Then(run, Deliver(BEFORE));
  }

  /** Already the motion that is command 2^64 does: its id is 0, and any status that answers no command will do. */
  lemma ZeroIdAccepted() returns (run: seq<Label>, id: nat)
    ensures var s := After(run);
      s.issued == WRAP && SucceededAs(s, id, SLOW) && NeverWritten(s.view.log, MotionRequest(SLOW))
  {
    run := Connects();
    run := StopOften(run, 0, WRAP - 1, BEFORE, CONNECTED);
    id := WRAP - 1;
    assert NextId(WRAP - 1) == 0;
    run := OldStatusAccepted(run, id, SLOW, BEFORE, CONNECTED);
  }
}
