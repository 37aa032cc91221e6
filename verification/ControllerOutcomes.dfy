/**
 * What the services and actions of the controller promise, in the fields of the messages themselves: what was
 * written and what was reported when one succeeds, exactly which look at a status decides one, and that each
 * can succeed.
 */
module ControllerOutcomes {
  import opened Backend
  import opened Controller
  import opened ControllerTheorems
  import opened ControllerWrap
  import opened Messages
  import opened Wrappers

  // ---------------------------------------------------------------- what success says of the device

  /** A command with every bit and every byte clear. */
  predicate Clear(r: Request) {
    && !r.activate && r.mode == 0 && !r.goTo && !r.automaticRelease
    && Plain(r)
  }

  /** No options and no axis requests. */
  predicate Plain(r: Request) {
    && !r.gloveMode && !r.individualFingers && !r.individualScissor
    && r.a == Axis(0, 0, 0) && r.b == Axis(0, 0, 0) && r.c == Axis(0, 0, 0) && r.scissor == Axis(0, 0, 0)
  }

  /** A command that activates in a mode and asks for nothing else. */
  predicate Activates(r: Request, mode: uint8) {
    && r.activate && r.mode == mode && !r.goTo && !r.automaticRelease
    && Plain(r)
  }

  /** A command with everything a motion goal names; `goTo` tells starting from stopping. */
  predicate Carries(r: Request, g: Goal, goTo: bool) {
    && r.activate && r.mode == g.mode && r.goTo == goTo && !r.automaticRelease
    && !r.gloveMode && r.individualFingers == g.individualFingers && r.individualScissor == g.individualScissor
    && r.a == g.a && r.b == g.b && r.c == g.c && r.scissor == g.scissor
  }

  /** The operation's own command was written at `w`, and at `r` the gripper was read, with only reads between. */
  ghost predicate WrittenAndRead(s: System, id: nat, w: nat, r: nat) {
    var log := s.view.log;
    && w < r < |log|
    && log[w].Applied? && log[r].Sampled? && log[w].connection == log[r].connection
    && (forall k :: w < k < r ==> log[k].Sampled? && log[k].connection == log[r].connection)
    && Publication(id, log[w].command) in s.published
  }

  ghost predicate Deactivated(s: System, id: nat, w: nat, r: nat) {
    && WrittenAndRead(s, id, w, r)
    && Clear(s.view.log[w].command.request)
    && !s.view.log[r].device.activated
  }

  /** If `deactivate` reports success, the gripper was read as not active after its own clear command. */
  lemma DeactivationIsReal(run: seq<Label>, id: nat)
    requires After(run).issued < WRAP && Finished(After(run), id, Deactivate, Succeeded)
    ensures exists w: nat, r: nat :: Deactivated(After(run), id, w, r)
  {
    AfterInvariant(run);
    var w, r := OperationAnswered(After(run), id, Deactivate);
    assert Deactivated(After(run), id, w, r);
  }

  ghost predicate Activated(s: System, id: nat, mode: uint8, w1: nat, r1: nat, w2: nat, r2: nat) {
    var log := s.view.log;
    && WrittenAndRead(s, id, w1, r1) && WrittenAndRead(s, id, w2, r2) && r1 < w2
    && SameConnection(log, w1, r2, log[r1].connection)
    && Clear(log[w1].command.request) && Activates(log[w2].command.request, mode)
    && !log[r1].device.activated && log[r1].device.initialization == 0
    && log[r2].device.activated && log[r2].device.initialization == 3 && log[r2].device.mode == mode
  }

  /**
   * If `activate` reports success, the gripper was read as reset after the clear command and as ready in the
   * configured mode after the activating one, on one uninterrupted connection.
   */
  lemma ActivationIsSeen(run: seq<Label>, id: nat, mode: uint8)
    requires After(run).issued < WRAP && Narrow(After(run).view.log)
    requires Finished(After(run), id, Activate(mode), Succeeded)
    ensures exists w1: nat, r1: nat, w2: nat, r2: nat :: Activated(After(run), id, mode, w1, r1, w2, r2)
  {
    AfterInvariant(run);
    var w1, r1, w2, r2 := ActivationAnswered(After(run), id, mode);
    assert Activated(After(run), id, mode, w1, r1, w2, r2);
  }

  /** The gripper reports what a motion waits for: the goal as its request, and the motion over or a fault. */
  predicate Reports(d: Device, g: Goal) {
    && d.mode == g.mode && d.goTo && d.initialization == 3
    && d.a.requested == g.a.position
    && (g.individualFingers ==> d.b.requested == g.b.position && d.c.requested == g.c.position)
    && (g.individualScissor ==> d.scissor.requested == g.scissor.position)
    && (d.motion != 0 || d.fault >= 9)
  }

  /** The command at `w` carried the goal, and the read at `r` shows it finished without a fault. */
  ghost predicate Moved(s: System, id: nat, g: Goal, w: nat, r: nat) {
    && WrittenAndRead(s, id, w, r)
    && Carries(s.view.log[w].command.request, g, true)
    && Completes(s.view.log[r].device, g)
    && id in s.threads && s.threads[id].seen.device == s.view.log[r].device
  }

  predicate Completes(d: Device, g: Goal) {
    Reports(d, g) && d.motion != 0 && d.fault < 9
  }

  lemma GoalCompletes(d: Device, g: Goal)
    ensures Completes(d, g) <==> Awaited(Motion(g), 0, d) && !Faulted(d)
    ensures Reports(d, g) <==> Awaited(Motion(g), 0, d)
    ensures Faulted(d) <==> d.fault >= 9
  {
  }

  lemma GoalCarried(g: Goal)
    ensures Carries(FirstRequest(Motion(g)), g, true)
    ensures Carries(MotionRequest(g).(goTo := false), g, false)
  {
  }

  /** If a motion succeeds, the gripper was read as having finished its own goal without a fault after its own command. */
  lemma MotionIsReal(run: seq<Label>, id: nat, g: Goal)
    requires After(run).issued < WRAP && Finished(After(run), id, Motion(g), Succeeded)
    ensures exists w: nat, r: nat :: Moved(After(run), id, g, w, r)
  {
    AfterInvariant(run);
    MotionSeen(After(run), id, g);
  }

  lemma MotionSeen(s: System, id: nat, g: Goal)
    requires Invariant(s) && Finished(s, id, Motion(g), Succeeded)
    ensures exists w: nat, r: nat :: Moved(s, id, g, w, r)
  {
    var w, r := OperationAnswered(s, id, Motion(g));
    GoalCarried(g);
    GoalCompletes(s.view.log[r].device, g);
    assert Moved(s, id, g, w, r);
  }

  /** The result of a motion is filled in from the motion status: reached for 3, contact for 1 and 2. */
  lemma ResultMeans(d: Device)
    ensures ReachedPosition(d) <==> d.motion == 3
    ensures StoppedByContact(d) <==> d.motion == 1 || d.motion == 2
  {
  }

  // ---------------------------------------------------------------- what one look decides

  /** The node is up, and the status at hand is connected, recent, of the same connection, and names the command. */
  predicate Answers(t: Thread, current: Option<Status>, ch: Choice) {
    && !ch.shutdown && !ch.stale && !(t.op.Motion? && ch.cancelled)
    && current.Some? && current.value.connected && current.value.connection == t.connection
    && current.value.lastCommand == t.command.id
  }

  /** The wait gives up at once, whatever the gripper reports. */
  predicate Breaks(t: Thread, current: Option<Status>, ch: Choice) {
    || ch.shutdown || (t.op.Motion? && ch.cancelled)
    || (current.Some? && (!current.value.connected || current.value.connection != t.connection || ch.stale))
  }

  predicate Ends(u: Thread, outcome: Outcome) {
    u.pc == Release && u.outcome == outcome
  }

  predicate StillWaits(t: Thread, u: Thread) {
    u.pc == Wait && u.command == t.command && u.exchanges == t.exchanges
  }

  /** A look that brought no answer ends the wait only if it breaks off or comes late. */
  predicate Unanswered(t: Thread, u: Thread, current: Option<Status>, ch: Choice) {
    if Breaks(t, current, ch) || ch.late then Ends(u, Failed) else StillWaits(t, u)
  }

  lemma RunPolls(s: System, id: nat, ch: Choice)
    requires id in s.threads && s.threads[id].pc == Wait
    ensures Step(s, Run(id, ch)).threads[id] == Poll(s.threads[id], s.current, ch)
  {
  }

  /** One look of `deactivate` ends it with success exactly when the status at hand answers and shows the gripper inactive. */
  lemma DeactivateLook(s: System, id: nat, ch: Choice)
    requires id in s.threads && s.threads[id].pc == Wait && s.threads[id].op == Deactivate
    ensures var t, u := s.threads[id], Step(s, Run(id, ch)).threads[id];
      if Answers(t, s.current, ch) && !s.current.value.device.activated then Ends(u, Succeeded)
      else Unanswered(t, u, s.current, ch)
  {
    RunPolls(s, id, ch);
  }

  /** The first wait of `activate` goes on to the activating command exactly when the answer shows the reset. */
  lemma ResetLook(s: System, id: nat, ch: Choice)
    requires id in s.threads && s.threads[id].pc == Wait && s.threads[id].op.Activate? && s.threads[id].exchanges == []
    ensures var t, u := s.threads[id], Step(s, Run(id, ch)).threads[id];
      if Answers(t, s.current, ch) && !s.current.value.device.activated && s.current.value.device.initialization == 0 then
        u.pc == Allocate && Activates(u.command.request, t.op.mode) && |u.exchanges| == 1
      else Unanswered(t, u, s.current, ch)
  {
    RunPolls(s, id, ch);
  }

  predicate ReadyIn(d: Device, mode: uint8) {
    d.activated && d.initialization == 3 && d.mode == mode
  }

  /** The second wait of `activate` ends it with success exactly when the answer shows the gripper ready in the mode. */
  lemma ReadyLook(s: System, id: nat, ch: Choice)
    requires id in s.threads && s.threads[id].pc == Wait && s.threads[id].op.Activate? && |s.threads[id].exchanges| == 1
    ensures var t, u := s.threads[id], Step(s, Run(id, ch)).threads[id];
      if Answers(t, s.current, ch) && ReadyIn(s.current.value.device, t.op.mode) then Ends(u, Succeeded)
      else Unanswered(t, u, s.current, ch)
  {
    RunPolls(s, id, ch);
  }

  /** Without an answer a motion stops the gripper when its connection still stands, and else just fails. */
  predicate MotionUnanswered(t: Thread, u: Thread, current: Option<Status>, ch: Choice) {
    if Breaks(t, current, ch) || ch.late then
      if u.seen.connected && u.seen.connection == t.connection then
        u.pc == Allocate && u.stopping && u.outcome == Failed && u.command.request == t.command.request.(goTo := false)
      else Ends(u, Failed)
    else StillWaits(t, u)
  }

  /** One look of a motion: success exactly when the answer reports its goal finished, failure on a fault. */
  lemma MotionLook(s: System, id: nat, g: Goal, ch: Choice)
    requires id in s.threads && s.threads[id].pc == Wait && s.threads[id].op == Motion(g)
    ensures var t, u := s.threads[id], Step(s, Run(id, ch)).threads[id];
      if Answers(t, s.current, ch) && Reports(s.current.value.device, g) then
        Ends(u, if s.current.value.device.fault < 9 then Succeeded else Failed) && u.seen == s.current.value
      else MotionUnanswered(t, u, s.current, ch)
  {
    RunPolls(s, id, ch);
    if s.current.Some? {
      GoalCompletes(s.current.value.device, g);
    }
    MotionPoll(s.threads[id], g, s.current, ch);
  }

  lemma MotionPoll(t: Thread, g: Goal, current: Option<Status>, ch: Choice)
    requires t.op == Motion(g)
    requires current.Some? ==> (Reports(current.value.device, g) <==> Awaited(t.op, |t.exchanges|, current.value.device))
    requires current.Some? ==> (Faulted(current.value.device) <==> current.value.device.fault >= 9)
    requires t.pc == Wait
    ensures var u := Poll(t, current, ch);
      if Answers(t, current, ch) && Reports(current.value.device, g) then
        Ends(u, if current.value.device.fault < 9 then Succeeded else Failed) && u.seen == current.value
      else MotionUnanswered(t, u, current, ch)
  {
    hide Reports, Awaited, Faulted;
  }

  // ---------------------------------------------------------------- what lets an operation begin

  /** A call is let in exactly when no operation is under way and a motion names one of the four modes; `stop` always is. */
  lemma BeginLook(s: System, id: nat, ch: Choice)
    requires id in s.threads && s.threads[id].pc == Begin
    ensures var t, s' := s.threads[id], Step(s, Run(id, ch));
      if t.op.Stop? then s'.threads[id].pc == Snapshot && s'.busy == s.busy
      else if !s.busy && (t.op.Motion? ==> t.op.goal.mode <= 3) then s'.threads[id].pc == Snapshot && s'.busy
      else s'.threads[id].pc == Done && s'.threads[id].outcome == Failed && s'.busy == s.busy
  {
  }

  /** A status is there, connected and recent, and for a motion shows the gripper ready. */
  predicate MayStart(op: Operation, current: Option<Status>, stale: bool) {
    && current.Some? && current.value.connected && !stale
    && (op.Motion? ==> current.value.device.activated && current.value.device.initialization == 3)
  }

  /** What the first command of an operation asks for. */
  predicate Opens(op: Operation, r: Request) {
    match op
    case Motion(g) => Carries(r, g, true)
    case _ => Clear(r)
  }

  /** An operation that was let in sends its first command exactly when the status at hand allows it, for that connection. */
  lemma SnapshotLook(s: System, id: nat, ch: Choice)
    requires id in s.threads && s.threads[id].pc == Snapshot && !s.threads[id].op.Stop?
    ensures var t, u := s.threads[id], Step(s, Run(id, ch)).threads[id];
      if MayStart(t.op, s.current, ch.stale) then
        u.pc == Allocate && Opens(t.op, u.command.request) && u.connection == s.current.value.connection
      else Ends(u, Failed)
  {
  }

  /** `stop` repeats the last command of any thread without go-to and release, or holds the mode and activation it sees. */
  predicate Holds(r: Request, last: Option<Command>, seen: Device) {
    if last.Some? then r == last.value.request.(goTo := false, automaticRelease := false)
    else
      && r.activate == seen.activated && r.mode == seen.mode && !r.goTo && !r.automaticRelease
      && Plain(r)
  }

  lemma StopLook(s: System, id: nat, ch: Choice)
    requires id in s.threads && s.threads[id].pc == Copy
    ensures var t, u := s.threads[id], Step(s, Run(id, ch)).threads[id];
      u.pc == Allocate && Holds(u.command.request, s.lastCommand, t.seen.device)
  {
  }
}
