/** What every run of the controller against every backend guarantees its callers. */
module ControllerTheorems {
  import opened Backend
  import opened Controller
  import opened ControllerExclusion
  import opened ControllerHistory
  import opened ControllerInvariants
  import opened ControllerScripts
  import opened Messages
  import opened Wrappers

  /** Everything the reachable states keep as long as the 64-bit command counter has not run around. */
  ghost predicate Invariant(s: System) {
    Shapes(s) && Ids(s) && Histories(s) && Exclusive(s.busy, s.threads) && InBlocks(s) && Scripted(s) && Owned(s)
  }

  lemma InvariantStart()
    ensures Invariant(INITIAL)
  {
  }

  lemma StepInvariant(s: System, l: Label)
    requires Invariant(s) && Step(s, l).issued < WRAP
    ensures Invariant(Step(s, l))
  {
    StepShapes(s, l);
    StepIds(s, l);
    StepHistories(s, l);
    StepExclusive(s, l);
    StepBlocks(s, l);
    StepScripted(s, l);
    StepOwned(s, l);
  }

  lemma IssuedGrows(s: System, l: Label)
    ensures s.issued <= Step(s, l).issued
  {
  }

  lemma {:induction false} AfterInvariant(run: seq<Label>)
    requires After(run).issued < WRAP
    ensures Invariant(After(run))
  {
    if run == [] {
      InvariantStart();
    } else {
      var before := run[..|run| - 1];
      IssuedGrows(After(before), run[|run| - 1]);
      AfterInvariant(before);
      StepInvariant(After(before), run[|run| - 1]);
    }
  }

  // ---------------------------------------------------------------- success means what it says

  predicate Finished(s: System, id: nat, op: Operation, outcome: Outcome) {
    id in s.threads && s.threads[id].op == op && s.threads[id].pc == Done && s.threads[id].outcome == outcome
  }

  /** A write of the request, later answered by a read of the same connection with only reads between. */
  ghost predicate Acknowledged(log: Log, w: nat, r: nat, connection: nat, request: Request) {
    && w < r < |log|
    && log[w].Applied? && log[w].connection == connection && log[w].command.request == request
    && log[r].Sampled? && log[r].connection == connection
    && Quiet(log, w + 1, r, connection)
  }

  /** Nothing but reads and writes of one connection: it was not closed or opened in between. */
  ghost predicate SameConnection(log: Log, from: nat, to: nat, connection: nat) {
    forall k :: from <= k <= to < |log| ==>
      log[k].connection == connection && !log[k].Opened? && !log[k].Closed?
  }

  lemma Uninterrupted(log: Log, i: nat, j: nat, c: nat)
    requires Ordered(log) && i < j < |log| && log[i].connection == c == log[j].connection
    requires !log[i].Opened? && !log[j].Closed? && !log[i].Closed?
    ensures SameConnection(log, i, j, c)
  {
    forall k | i < k < j
      ensures log[k].connection == c && !log[k].Opened? && !log[k].Closed?
    {
      assert Follows(log[i], log[k]) && Follows(log[k], log[j]);
    }
    assert Follows(log[i], log[j]);
  }

  lemma SmallModulus(a: nat, b: nat)
    requires a < WRAP && b < WRAP && a % WRAP == b % WRAP
    ensures a == b
  {
  }

  lemma AnsweredWithin(log: Log, end: nat, x: Exchange, w: nat, r: nat)
    requires end <= |log| && Answered(log[..end], x, w, r)
    ensures r < end && Answered(log, x, w, r)
  {
    assert forall k :: 0 <= k < end ==> log[..end][k] == log[k];
  }

  /** What one answered exchange of a thread says about the log. */
  lemma ExchangeSeen(s: System, id: nat, k: nat, w: nat, r: nat)
    requires Invariant(s) && id in s.threads && k < |s.threads[id].exchanges|
    requires Answered(s.view.log, s.threads[id].exchanges[k], w, r)
    ensures Acknowledged(s.view.log, w, r, s.view.log[r].connection, RequestAt(s.threads[id].op, k))
    ensures Awaited(s.threads[id].op, k, s.view.log[r].device)
    ensures s.view.log[r].connection % WRAP == s.threads[id].connection
    ensures Publication(id, s.view.log[w].command) in s.published
    ensures s.view.log[r].device == s.threads[id].exchanges[k].reply.device
  {
    var t := s.threads[id];
    assert Shape(t) && Fulfilled(t, k);
    assert Own(s.published, id, t);
  }

  /**
   * If `activate` reports success, the gripper saw on one uninterrupted connection the reset command,
   * a read showing the reset, the activate command and a read showing it ready in the configured mode,
   * and between each command and its read nothing but reads.
   */
  lemma ActivationIsReal(run: seq<Label>, id: nat, mode: uint8)
    requires After(run).issued < WRAP && Narrow(After(run).view.log)
    requires Finished(After(run), id, Activate(mode), Succeeded)
    ensures exists w1: nat, r1: nat, w2: nat, r2: nat :: ActivationSeen(After(run), id, mode, w1, r1, w2, r2)
  {
    AfterInvariant(run);
    var w1, r1, w2, r2 := ActivationAnswered(After(run), id, mode);
  }

  lemma ActivationAnswered(s: System, id: nat, mode: uint8) returns (w1: nat, r1: nat, w2: nat, r2: nat)
    requires Invariant(s) && Narrow(s.view.log) && Finished(s, id, Activate(mode), Succeeded)
    ensures ActivationSeen(s, id, mode, w1, r1, w2, r2)
  {
    var log := s.view.log;
    var t := s.threads[id];
    assert Shape(t) && History(log, t);
    var x, y := t.exchanges[0], t.exchanges[1];
    w1, r1 :| Answered(log[..y.begun], x, w1, r1);
    w2, r2 :| Answered(log, y, w2, r2);
    AnsweredWithin(log, y.begun, x, w1, r1);
    ExchangeSeen(s, id, 0, w1, r1);
    ExchangeSeen(s, id, 1, w2, r2);
    SmallModulus(log[r1].connection, log[r2].connection);
    Uninterrupted(log, w1, r2, log[r1].connection);
  }

  ghost predicate ActivationSeen(s: System, id: nat, mode: uint8, w1: nat, r1: nat, w2: nat, r2: nat) {
    var log := s.view.log;
    && w1 < r1 < w2 < r2 < |log|
    && Acknowledged(log, w1, r1, log[r1].connection, ZERO_REQUEST) && IsReset(log[r1].device)
    && Acknowledged(log, w2, r2, log[r1].connection, ActivationRequest(mode)) && IsReady(log[r2].device, mode)
    && SameConnection(log, w1, r2, log[r1].connection)
    && Publication(id, log[w1].command) in s.published
    && Publication(id, log[w2].command) in s.published
  }

  /** If an operation with one command succeeds, that very command was written and then answered by what it reports. */
  ghost predicate OperationSeen(s: System, id: nat, op: Operation, w: nat, r: nat) {
    var log := s.view.log;
    && w < r < |log|
    && Acknowledged(log, w, r, log[r].connection, FirstRequest(op)) && Awaited(op, 0, log[r].device)
    && Publication(id, log[w].command) in s.published
    && (op.Motion? ==> !Faulted(log[r].device))
    && id in s.threads && s.threads[id].seen.device == log[r].device
  }

  /** If `deactivate` or a motion succeeds, its own command was written and then answered on that connection. */
  lemma OperationIsReal(run: seq<Label>, id: nat, op: Operation)
    requires After(run).issued < WRAP && (op.Deactivate? || op.Motion?) && Finished(After(run), id, op, Succeeded)
    ensures exists w: nat, r: nat :: OperationSeen(After(run), id, op, w, r)
  {
    AfterInvariant(run);
    var w, r := OperationAnswered(After(run), id, op);
  }

  lemma OperationAnswered(s: System, id: nat, op: Operation) returns (w: nat, r: nat)
    requires Invariant(s) && (op.Deactivate? || op.Motion?) && Finished(s, id, op, Succeeded)
    ensures OperationSeen(s, id, op, w, r)
  {
    var t := s.threads[id];
    assert Shape(t) && History(s.view.log, t);
    w, r :| Answered(s.view.log, t.exchanges[0], w, r);
    ExchangeSeen(s, id, 0, w, r);
  }

  /** How a motion result is filled in from the last status. */
  predicate ReachedPosition(d: Device) {
    d.motion == MOTION_REACHED
  }

  predicate StoppedByContact(d: Device) {
    d.motion == MOTION_PARTIAL_CONTACT || d.motion == MOTION_ALL_CONTACT
  }

  lemma ThreadDecided(t: Thread, goal: Goal)
    requires Shape(t) && t.op == Motion(goal) && t.outcome == Succeeded && t.seen.device.motion < 4
    ensures var d := t.seen.device; ReachedPosition(d) != StoppedByContact(d) && Requested(goal, d) && !Faulted(d)
  {
    assert Fulfilled(t, 0);
  }

  /** A motion that succeeds says one thing: the position was reached, or contact stopped it; and it is still answering for its goal. */
  lemma MotionResultIsDecided(run: seq<Label>, id: nat, goal: Goal)
    requires After(run).issued < WRAP && Finished(After(run), id, Motion(goal), Succeeded)
    requires After(run).threads[id].seen.device.motion < 4
    ensures var d := After(run).threads[id].seen.device;
      ReachedPosition(d) != StoppedByContact(d) && Requested(goal, d) && !Faulted(d)
  {
    AfterInvariant(run);
    ThreadDecided(After(run).threads[id], goal);
  }

  // ---------------------------------------------------------------- exclusion

  predicate NotStop(s: System, k: nat)
    requires k < |s.published|
  {
    s.published[k].thread in s.threads && !s.threads[s.published[k].thread].op.Stop?
  }

  /**
   * What activate, deactivate and the motions publish comes in blocks, one operation after the other,
   * with strictly increasing ids, none of them zero; only `stop` publishes in between.
   */
  lemma {:induction false} OperationsExclude(run: seq<Label>, i: nat, j: nat)
    requires After(run).issued < WRAP
    requires i < j < |After(run).published| && NotStop(After(run), i) && NotStop(After(run), j)
    ensures 0 < After(run).published[i].command.id < After(run).published[j].command.id
    ensures forall k :: j < k < |After(run).published| && After(run).published[k].thread == After(run).published[i].thread ==>
              After(run).published[j].thread == After(run).published[i].thread
  {
    AfterInvariant(run);
    var s := After(run);
    assert Ordinary(s.threads, s.published[i]) && Ordinary(s.threads, s.published[j]);
    assert s.published[i].command in s.sent;
    forall k | j < k < |s.published| && s.published[k].thread == s.published[i].thread
      ensures s.published[j].thread == s.published[i].thread
    {
      assert Unbroken(s.threads, s.published[i], s.published[j]);
    }
  }

  /** The busy flag is set exactly while some operation is between entering and releasing it, and only one ever is. */
  lemma BusyMeansOne(run: seq<Label>)
    requires After(run).issued < WRAP
    ensures After(run).busy <==> exists i: nat :: HoldsAt(After(run).threads, i)
    ensures forall i, j :: HoldsAt(After(run).threads, i) && HoldsAt(After(run).threads, j) ==> i == j
  {
    AfterInvariant(run);
  }

  /** What an operation has published when it is about to release the flag, or has released it. */
  predicate Ended(s: System, id: nat) {
    id in s.threads && (s.threads[id].pc == Release || s.threads[id].pc == Done)
  }

  /**
   * A motion that published its command and ended without the awaited report, while the last status it
   * looked at showed its connection up, has published the same command without the go-to bit, and
   * nothing else, before it gives up the busy flag.
   */
  lemma {:induction false} FailedMotionIsStopped(run: seq<Label>, id: nat, goal: Goal)
    requires After(run).issued < WRAP && Ended(After(run), id)
    requires var t := After(run).threads[id]; t.op == Motion(goal) && t.exchanges == [] && StillThere(t)
    requires RequestsOf(After(run).published, id) != []
    ensures RequestsOf(After(run).published, id) == [MotionRequest(goal), MotionRequest(goal).(goTo := false)]
  {
    AfterInvariant(run);
    var s := After(run);
    FailedScript(s.threads[id], goal, RequestsOf(s.published, id));
  }

  lemma FailedScript(t: Thread, goal: Goal, requests: seq<Request>)
    requires OnScript(t, requests) && Shape(t) && requests != []
    requires t.op == Motion(goal) && t.exchanges == [] && StillThere(t) && (t.pc == Release || t.pc == Done)
    ensures requests == [MotionRequest(goal), MotionRequest(goal).(goTo := false)]
  {
  }

  /** An operation that succeeds has published its commands and no more: a motion, no stop. */
  lemma SuccessPublishes(run: seq<Label>, id: nat, op: Operation)
    requires After(run).issued < WRAP && Finished(After(run), id, op, Succeeded) && !op.Stop?
    ensures RequestsOf(After(run).published, id) == if op.Motion? then [MotionRequest(op.goal)] else Script(op)
  {
    AfterInvariant(run);
    var s := After(run);
    assert Shape(s.threads[id]);
    SucceededScript(s.threads[id], RequestsOf(s.published, id));
  }
}
