/**
 * The reactivation handshake of the two-finger gripper: service calls, the control loop and the
 * communication thread, one access to the shared variables at a time.
 */
module Reactivation {
  import opened Wrappers

  /** What the driver has carried out. */
  datatype Event = Deactivated | Activated

  /** A service call: it has marked the response as waiting and will set the command, it polls, or it has returned. */
  datatype CallPc = SetCommand | Polling | Returned(success: bool)

  /** A call and how much the driver had done when it began. */
  datatype Call = Call(pc: CallPc, began: nat)

  datatype ControlPc = CheckCommand | ClearCommand | CheckAnswer | CopyAnswer | ClearAnswer

  datatype CommPc = CheckRequest | Deactivate | Activate | LowerRequest | RaiseAnswer

  datatype State = State(
    command: bool,
    response: Option<bool>,
    request: bool,
    answer: Option<bool>,
    control: ControlPc,
    comm: CommPc,
    log: seq<Event>,
    calls: map<nat, Call>)

  /** No command, no response waited for, both threads at the top of their loops. */
  const INITIAL := State(false, Some(false), false, None, CheckCommand, CheckRequest, [], map[])

  // ---------------------------------------------------------------- the threads

  /** `reactivateGripper`; a response of `None` stands for the waiting mark. */
  function CallStep(s: State, id: nat): State
    requires id in s.calls
  {
    var c := s.calls[id];
    match c.pc
    case SetCommand => s.(command := true, calls := s.calls[id := c.(pc := Polling)])
    case Polling =>
      if s.response.None? then s else s.(calls := s.calls[id := c.(pc := Returned(s.response.value))])
    case Returned(_) => s
  }

  function BeginCall(s: State, id: nat): State {
    s.(response := None, calls := s.calls[id := Call(SetCommand, |s.log|)])
  }

  /** `read` of the hardware interface. */
  function ControlStep(s: State): State {
    match s.control
    case CheckCommand => if s.command then s.(request := true, control := ClearCommand) else s.(control := CheckAnswer)
    case ClearCommand => s.(command := false, control := CheckAnswer)
    case CheckAnswer => s.(control := if s.answer.Some? then CopyAnswer else CheckCommand)
    case CopyAnswer => s.(response := s.answer, control := ClearAnswer)
    case ClearAnswer => s.(answer := None, control := CheckCommand)
  }

  /** The reactivation part of `background_task`; a driver call that throws ends the round. */
  function CommStep(s: State, ok: bool): State {
    match s.comm
    case CheckRequest => if s.request then s.(comm := Deactivate) else s
    case Deactivate => if ok then s.(log := s.log + [Deactivated], comm := Activate) else s.(comm := CheckRequest)
    case Activate => if ok then s.(log := s.log + [Activated], comm := LowerRequest) else s.(comm := CheckRequest)
    case LowerRequest => s.(request := false, comm := RaiseAnswer)
    case RaiseAnswer => s.(answer := Some(true), comm := CheckRequest)
  }

  datatype Label = Begin(id: nat) | Service(id: nat) | Control | Communicate(ok: bool)

  function Step(s: State, l: Label): State {
    match l
    case Begin(id) => if id in s.calls then s else BeginCall(s, id)
    case Service(id) => if id in s.calls then CallStep(s, id) else s
    case Control => ControlStep(s)
    case Communicate(ok) => CommStep(s, ok)
  }

  function After(run: seq<Label>): State {
    if run == [] then INITIAL else Step(After(run[..|run| - 1]), run[|run| - 1])
  }

  // ---------------------------------------------------------------- one outstanding call

  predicate Outstanding(s: State, id: nat) {
    id in s.calls && !s.calls[id].pc.Returned?
  }

  ghost predicate Idle(s: State) {
    forall id :: !Outstanding(s, id)
  }

  /**
   * No call begins while another is outstanding. The service is in the default callback group of its
   * node, whose callbacks exclude one another, so this holds of the program; how it would be without
   * it is shown below.
   */
  ghost predicate OneAtATime(run: seq<Label>) {
    forall k :: 0 <= k < |run| && run[k].Begin? ==> Idle(After(run[..k]))
  }

  // ---------------------------------------------------------------- what the handshake keeps

  predicate PairAt(log: seq<Event>, i: nat) {
    i + 1 < |log| && log[i] == Deactivated && log[i + 1] == Activated
  }

  /** The driver was deactivated and then activated after the log had this length. */
  ghost predicate PairSince(log: seq<Event>, began: nat) {
    exists i: nat :: began <= i && PairAt(log, i)
  }

  /** Nothing is under way between the threads; at most an old answer is still to be cleared. */
  predicate Clear(s: State) {
    && !s.request && s.comm == CheckRequest
    && s.control in {CheckCommand, CheckAnswer, ClearAnswer}
    && (s.answer.Some? ==> s.control == ClearAnswer)
  }

  predicate Working(s: State) {
    && s.request && s.answer == None && s.comm in {CheckRequest, Deactivate, Activate, LowerRequest}
    && s.control in {CheckCommand, ClearCommand, CheckAnswer}
  }

  predicate Answering(s: State) {
    && !s.request && s.answer == None && s.comm == RaiseAnswer
    && s.control in {CheckCommand, ClearCommand, CheckAnswer}
  }

  predicate Answered(s: State) {
    !s.request && s.answer.Some? && s.comm == CheckRequest && s.control in {CheckCommand, ClearCommand, CheckAnswer, CopyAnswer}
  }

  ghost predicate Progress(s: State, began: nat) {
    && (s.comm == Activate ==> |s.log| > 0 && began < |s.log| && s.log[|s.log| - 1] == Deactivated)
    && (s.comm == LowerRequest ==> PairSince(s.log, began))
    && (Answering(s) || Answered(s) ==> PairSince(s.log, began))
  }

  /** The command has been passed on and the response has not come back. */
  ghost predicate Forwarded(s: State, began: nat) {
    && s.response == None
    && (s.command <==> s.control == ClearCommand)
    && (Working(s) || Answering(s) || Answered(s))
    && began <= |s.log| && Progress(s, began)
  }

  ghost predicate Delivered(s: State, began: nat) {
    s.response.Some? && !s.command && Clear(s) && PairSince(s.log, began)
  }

  /** Where the one outstanding call is. */
  ghost predicate Stage(s: State, c: Call) {
    match c.pc
    case SetCommand => s.response == None && !s.command && Clear(s) && c.began <= |s.log|
    case Polling =>
      || (s.response == None && s.command && Clear(s) && c.began <= |s.log|)
      || Forwarded(s, c.began)
      || Delivered(s, c.began)
    case Returned(_) => true
  }

  ghost predicate Invariant(s: State) {
    && (forall i, j :: Outstanding(s, i) && Outstanding(s, j) ==> i == j)
    && (forall id :: id in s.calls ==> Stage(s, s.calls[id]))
    && (Idle(s) ==> !s.command && Clear(s))
    && (forall id :: id in s.calls && s.calls[id].pc.Returned? ==> PairSince(s.log, s.calls[id].began))
  }

  lemma PairStays(log: seq<Event>, e: Event, began: nat)
    requires PairSince(log, began)
    ensures PairSince(log + [e], began)
  {
    var i: nat :| began <= i && PairAt(log, i);
    assert PairAt(log + [e], i);
  }

  lemma PairCompleted(log: seq<Event>, began: nat)
    requires began < |log| && log[|log| - 1] == Deactivated
    ensures PairSince(log + [Activated], began)
  {
    assert PairAt(log + [Activated], |log| - 1);
  }

  lemma CommStage(s: State, ok: bool, c: Call)
    requires Stage(s, c) && !c.pc.Returned?
    ensures Stage(CommStep(s, ok), c)
  {
    if s.comm == Activate && ok && Forwarded(s, c.began) {
      PairCompleted(s.log, c.began);
    }
  }

  lemma ControlStage(s: State, c: Call)
    requires Stage(s, c) && !c.pc.Returned?
    ensures Stage(ControlStep(s), c)
  {
  }

  lemma ClearStays(s: State, ok: bool)
    requires Clear(s) && !s.command
    ensures Clear(ControlStep(s)) && !ControlStep(s).command
    ensures Clear(CommStep(s, ok)) && CommStep(s, ok) == s
  {
  }

  lemma ThreadStep(s: State, l: Label)
    requires Invariant(s) && (l.Control? || l.Communicate?)
    ensures Invariant(Step(s, l))
  {
    var t := Step(s, l);
    assert t.calls == s.calls;
    assert forall id :: Outstanding(t, id) <==> Outstanding(s, id);
    forall id | id in t.calls
      ensures Stage(t, t.calls[id])
      ensures t.calls[id].pc.Returned? ==> PairSince(t.log, t.calls[id].began)
    {
      ThreadStage(s, l, t, s.calls[id]);
    }
    if Idle(s) {
      ThreadClear(s, l, t);
    }
  }

  /** What a thread's step keeps of one call. */
  lemma ThreadStage(s: State, l: Label, t: State, c: Call)
    requires (l.Control? || l.Communicate?) && t == Step(s, l)
    requires Stage(s, c) && (c.pc.Returned? ==> PairSince(s.log, c.began))
    ensures Stage(t, c) && (c.pc.Returned? ==> PairSince(t.log, c.began))
  {
    if c.pc.Returned? {
      LogStays(s, l, c.began);
    } else if l.Control? {
      ControlStage(s, c);
    } else {
      CommStage(s, l.ok, c);
    }
  }

  lemma ThreadClear(s: State, l: Label, t: State)
    requires (l.Control? || l.Communicate?) && t == Step(s, l) && Clear(s) && !s.command
    ensures Clear(t) && !t.command
  {
    ClearStays(s, if l.Communicate? then l.ok else true);
  }

  lemma LogStays(s: State, l: Label, began: nat)
    requires PairSince(s.log, began)
    ensures PairSince(Step(s, l).log, began)
  {
    PairStays(s.log, Deactivated, began);
    PairStays(s.log, Activated, began);
  }

  lemma ServiceStep(s: State, id: nat)
    requires Invariant(s) && id in s.calls
    ensures Invariant(CallStep(s, id))
  {
    var t := CallStep(s, id);
    assert forall i :: i != id ==> (Outstanding(t, i) <==> Outstanding(s, i));
    forall i | i in t.calls
      ensures Stage(t, t.calls[i])
      ensures t.calls[i].pc.Returned? ==> PairSince(t.log, t.calls[i].began)
    {
      assert Stage(s, s.calls[i]) && Stage(s, s.calls[id]);
      if i != id && Outstanding(s, i) {
        assert !Outstanding(s, id);
      }
    }
    if Idle(t) && Outstanding(s, id) {
      assert !Outstanding(t, id);
      assert Delivered(s, s.calls[id].began);
    }
  }

  lemma BeginStep(s: State, id: nat)
    requires Invariant(s) && Idle(s) && id !in s.calls
    ensures Invariant(BeginCall(s, id))
  {
    var t := BeginCall(s, id);
    assert forall i :: i != id ==> (Outstanding(t, i) <==> Outstanding(s, i));
    assert Outstanding(t, id);
    forall i | i in t.calls
      ensures Stage(t, t.calls[i])
      ensures t.calls[i].pc.Returned? ==> PairSince(t.log, t.calls[i].began)
    {
      assert !Outstanding(s, i);
    }
  }

  lemma {:induction false} AfterInvariant(run: seq<Label>)
    requires OneAtATime(run)
    ensures Invariant(After(run))
  {
    if run != [] {
      var k := |run| - 1;
      var before := run[..k];
      assert forall j :: 0 <= j < k ==> before[..j] == run[..j];
      AfterInvariant(before);
      match run[k]
      case Begin(id) => if id !in After(before).calls { BeginStep(After(before), id); }
      case Service(id) => if id in After(before).calls { ServiceStep(After(before), id); }
      case Control => ThreadStep(After(before), Control);
      case Communicate(ok) => ThreadStep(After(before), Communicate(ok));
    }
  }

  /**
   * With one call outstanding at a time, whatever the interleaving and however often the driver throws:
   * when a call returns, the gripper was deactivated and then activated since the call began.
   */
  lemma ReturnMeansReactivated(run: seq<Label>, id: nat)
    requires OneAtATime(run) && id in After(run).calls && After(run).calls[id].pc.Returned?
    ensures PairSince(After(run).log, After(run).calls[id].began)
  {
    AfterInvariant(run);
  }

  // ---------------------------------------------------------------- calls that overlap, if they could

  /** Nothing that was done for an earlier call can still answer a call that begins now. */
  predicate Unspoilt(s: State) {
    && (s.comm.CheckRequest? || s.comm.Deactivate?)
    && (s.answer.None? || s.control == ClearAnswer)
  }

  /** If the call has returned, the gripper was reactivated since it began. */
  ghost predicate Kept(s: State, id: nat) {
    id in s.calls && s.calls[id].pc.Returned? ==> PairSince(s.log, s.calls[id].began)
  }

  /** A call that begins after this run is never answered in vain, whatever happens then, other calls included. */
  ghost predicate Served(run: seq<Label>, id: nat) {
    forall more: seq<Label> :: Kept(After(run + [Begin(id)] + more), id)
  }

  /** Whatever could still answer the call is from after it began. */
  ghost predicate Fresh(s: State, id: nat) {
    && id in s.calls
    && var began := s.calls[id].began;
    && began <= |s.log|
    && (s.comm == Activate ==> began < |s.log| && s.log[|s.log| - 1] == Deactivated)
    && (s.comm.LowerRequest? || s.comm.RaiseAnswer? ==> PairSince(s.log, began))
    && (s.answer.Some? && s.control != ClearAnswer ==> PairSince(s.log, began))
    && (s.response.Some? ==> PairSince(s.log, began))
    && Kept(s, id)
  }

  lemma FreshCommunication(s: State, ok: bool, id: nat)
    requires Fresh(s, id)
    ensures Fresh(CommStep(s, ok), id)
  {
    var began := s.calls[id].began;
    if PairSince(s.log, began) {
      LogStays(s, Communicate(ok), began);
    }
    if s.comm == Activate && ok {
      PairCompleted(s.log, began);
    }
  }

  lemma FreshControl(s: State, id: nat)
    requires Fresh(s, id)
    ensures Fresh(ControlStep(s), id)
  {
  }

  lemma FreshCalls(s: State, other: nat, id: nat)
    requires Fresh(s, id)
    ensures other in s.calls ==> Fresh(CallStep(s, other), id)
    ensures other !in s.calls ==> Fresh(BeginCall(s, other), id)
  {
  }

  lemma FreshStep(s: State, l: Label, id: nat)
    requires Fresh(s, id)
    ensures Fresh(Step(s, l), id)
  {
    match l
    case Begin(other) => FreshCalls(s, other, id);
    case Service(other) => FreshCalls(s, other, id);
    case Control => FreshControl(s, id);
    case Communicate(ok) => FreshCommunication(s, ok, id);
  }

  lemma AfterPlus(run: seq<Label>, l: Label)
    ensures After(run + [l]) == Step(After(run), l)
  {
    assert (run + [l])[..|run|] == run;
  }

  lemma {:induction false} StaysFresh(run: seq<Label>, more: seq<Label>, id: nat)
    requires Fresh(After(run), id)
    ensures Fresh(After(run + more), id)
    decreases |more|
  {
    if more == [] {
      assert run + more == run;
    } else {
      var n := |more| - 1;
      StaysFresh(run, more[..n], id);
      assert run + more == run + more[..n] + [more[n]];
      AfterPlus(run + more[..n], more[n]);
      FreshStep(After(run + more[..n]), more[n], id);
    }
  }

  /** Labels one after the other, from any state. */
  function Steps(s: State, more: seq<Label>): State
    decreases |more|
  {
    if more == [] then s else Steps(Step(s, more[0]), more[1..])
  }

  lemma {:induction false} AfterSteps(run: seq<Label>, more: seq<Label>)
    ensures After(run + more) == Steps(After(run), more)
    decreases |more|
  {
    if more == [] {
      assert run + more == run;
    } else {
      assert run + more == run + [more[0]] + more[1..];
      AfterPlus(run, more[0]);
      AfterSteps(run + [more[0]], more[1..]);
    }
  }

  /** The driver had at most activated the gripper since the call began, and the call is waiting to go on. */
  ghost predicate Behind(s: State, id: nat) {
    && id in s.calls && s.calls[id].pc == SetCommand && s.response.None?
    && s.calls[id].began <= |s.log| && forall k :: s.calls[id].began <= k < |s.log| ==> s.log[k] == Activated
  }

  lemma NoPair(s: State, id: nat)
    requires Behind(s, id)
    ensures !PairSince(s.log, s.calls[id].began)
  {
  }

  lemma StepsFirst(s: State, l: Label, more: seq<Label>)
    ensures Steps(s, [l] + more) == Steps(Step(s, l), more)
  {
    assert ([l] + more)[1..] == more;
  }

  /** The call, let on, takes the response it finds. */
  lemma TakesResponse(s: State, id: nat)
    requires id in s.calls && s.calls[id].pc == SetCommand && s.response.Some?
    ensures var t := Steps(s, [Service(id), Service(id)]);
      id in t.calls && t.calls[id] == s.calls[id].(pc := Returned(s.response.value)) && t.log == s.log
  {
    StepsFirst(s, Service(id), [Service(id)]);
    StepsFirst(Step(s, Service(id)), Service(id), []);
  }

  /** An answer that is there and not yet copied will be taken for the answer to this call. */
  lemma {:induction false} TakesOldAnswer(s: State, id: nat) returns (more: seq<Label>)
    requires Behind(s, id) && s.answer.Some? && s.control != ClearAnswer
    ensures !Kept(Steps(s, more), id)
    decreases match s.control case CheckCommand => 3 case ClearCommand => 2 case CheckAnswer => 1 case _ => 0
  {
    var t := Step(s, Control);
    if s.control == CopyAnswer {
      more := [Service(id), Service(id)];
      TakesResponse(t, id);
      NoPair(s, id);
    } else {
      more := TakesOldAnswer(t, id);
    }
    StepsFirst(s, Control, more);
    more := [Control] + more;
  }

  /** The end of an earlier reactivation will be taken for the answer to this call. */
  lemma {:induction false} TakesOldReactivation(s: State, id: nat) returns (more: seq<Label>)
    requires Behind(s, id) && !s.comm.CheckRequest? && !s.comm.Deactivate? && s.control != ClearAnswer
    ensures !Kept(Steps(s, more), id)
    decreases match s.comm case Activate => 2 case LowerRequest => 1 case _ => 0
  {
    var t := Step(s, Communicate(true));
    if s.comm == RaiseAnswer {
      more := TakesOldAnswer(t, id);
    } else {
      more := TakesOldReactivation(t, id);
    }
    StepsFirst(s, Communicate(true), more);
    more := [Communicate(true)] + more;
  }

  lemma TakesOld(s: State, id: nat) returns (more: seq<Label>)
    requires Behind(s, id) && !Unspoilt(s)
    ensures !Kept(Steps(s, more), id)
  {
    if s.answer.Some? && s.control != ClearAnswer {
      more := TakesOldAnswer(s, id);
    } else if s.control != ClearAnswer {
      more := TakesOldReactivation(s, id);
    } else {
      more := TakesOldReactivation(Step(s, Control), id);
      StepsFirst(s, Control, more);
      more := [Control] + more;
    }
  }

  /**
   * Calls that overlap in any way: a call is answered by a reactivation of its own in every continuation if
   * and only if, when it begins, the communication thread is not past the deactivation and no answer waits to
   * be copied.
   */
  lemma ServedExactly(run: seq<Label>, id: nat)
    requires id !in After(run).calls
    ensures Served(run, id) <==> Unspoilt(After(run))
  {
    var begun := run + [Begin(id)];
    AfterPlus(run, Begin(id));
    if Unspoilt(After(run)) {
      assert Fresh(After(begun), id);
      forall more: seq<Label>
        ensures Kept(After(begun + more), id)
      {
        StaysFresh(begun, more, id);
      }
    } else {
      var more := TakesOld(After(begun), id);
      AfterSteps(begun, more);
    }
  }

  /** Where calls do not overlap, that is so whenever one begins. */
  lemma AloneIsUnspoilt(run: seq<Label>)
    requires OneAtATime(run) && Idle(After(run))
    ensures Unspoilt(After(run))
  {
    AfterInvariant(run);
  }

  /** The second call begins between the deactivation and the activation that the first one asked for. */
  const OVERLAP := [
    Begin(1), Service(1), Control, Control, Communicate(true), Communicate(true),
    Begin(2), Service(2), Communicate(true), Communicate(true), Communicate(true),
    Control, Control, Service(2)]

  lemma Then(run: seq<Label>, l: Label) returns (run': seq<Label>)
    ensures run' == run + [l] && After(run') == Step(After(run), l)
  {
    run' := run + [l];
    AfterPlus(run, l);
  }

  /** The first call has got as far as the deactivation. */
  lemma FirstHalf() returns (run: seq<Label>)
    ensures run == OVERLAP[..6]
    ensures After(run) == State(false, None, true, None, CheckAnswer, Activate, [Deactivated], map[1 := Call(Polling, 0)])
  {
    run := Then([], Begin(1));
    run := Then(run, Service(1));
    run := Then(run, Control);
    run := Then(run, Control);
    run := Then(run, Communicate(true));
    run := Then(run, Communicate(true));
    assert [] + [Deactivated] == [Deactivated];
  }

  /** The second call has begun, and the first one's reactivation is finished. */
  lemma SecondHalf() returns (run: seq<Label>)
    ensures run == OVERLAP[..11]
    ensures After(run) == State(true, None, false, Some(true), CheckAnswer, CheckRequest, [Deactivated, Activated],
                                map[1 := Call(Polling, 0), 2 := Call(Polling, 1)])
  {
    run := FirstHalf();
    run := Then(run, Begin(2));
    run := Then(run, Service(2));
    run := Then(run, Communicate(true));
    assert [Deactivated] + [Activated] == [Deactivated, Activated];
    run := Then(run, Communicate(true));
    run := Then(run, Communicate(true));
  }

  /** With two calls outstanding the second one returns although no reactivation took place since it began. */
  lemma OverlappingCallsShareAnAnswer()
    ensures 2 in After(OVERLAP).calls && After(OVERLAP).calls[2] == Call(Returned(true), 1)
    ensures After(OVERLAP).log == [Deactivated, Activated] && !PairSince(After(OVERLAP).log, 1)
  {
    var run := SecondHalf();
    run := Then(run, Control);
    run := Then(run, Control);
    run := Then(run, Service(2));
    assert run == OVERLAP;
  }

  // ---------------------------------------------------------------- calls return

  /** What is answered to anybody is true: nothing false is ever on its way once a call has begun. */
  ghost predicate Truthful(s: State) {
    && s.answer != Some(false)
    && (s.control == CopyAnswer ==> s.answer.Some?)
    && (s.calls != map[] ==> s.response != Some(false))
    && forall id :: id in s.calls ==> s.calls[id].pc != Returned(false)
  }

  lemma StepTruthful(s: State, l: Label)
    requires Truthful(s)
    ensures Truthful(Step(s, l))
  {
    match l
    case Begin(_) =>
    case Service(_) =>
    case Control =>
    case Communicate(_) =>
  }

  /** In every run, overlapping calls included, a call that has returned reported success. */
  lemma {:induction false} ReturnsTrue(run: seq<Label>, id: nat)
    requires id in After(run).calls && After(run).calls[id].pc.Returned?
    ensures After(run).calls[id].pc.success
  {
    AfterTruthful(run);
  }

  lemma {:induction false} AfterTruthful(run: seq<Label>)
    ensures Truthful(After(run))
  {
    if run != [] {
      AfterTruthful(run[..|run| - 1]);
      StepTruthful(After(run[..|run| - 1]), run[|run| - 1]);
    }
  }

  /** Both threads are at the top of their loops with nothing to do. */
  predicate AtRest(s: State) {
    !s.command && !s.request && s.answer == None && s.control == CheckCommand && s.comm == CheckRequest
  }

  lemma ComesToRest(run: seq<Label>) returns (run': seq<Label>)
    requires Clear(After(run)) && !After(run).command
    ensures run <= run' && AtRest(After(run')) && After(run').log == After(run).log && After(run').calls == After(run).calls
  {
    run' := if After(run).control == CheckCommand then run else run + [Control];
    AfterPlus(run, Control);
  }

  /** The call has begun and its command has been passed on to the communication thread. */
  lemma PassesOn(run: seq<Label>, id: nat) returns (run': seq<Label>)
    requires AtRest(After(run)) && id !in After(run).calls
    ensures run <= run'
    ensures var s := After(run);
      After(run') == State(false, None, true, None, CheckAnswer, CheckRequest, s.log, s.calls[id := Call(Polling, |s.log|)])
  {
    run' := Then(run, Begin(id));
    run' := Then(run', Service(id));
    run' := Then(run', Control);
    run' := Then(run', Control);
  }

  /** The communication thread carries the request out. */
  lemma CarriesOut(run: seq<Label>) returns (run': seq<Label>)
    requires var s := After(run); s.request && s.answer == None && s.comm == CheckRequest
    ensures run <= run'
    ensures After(run') == After(run).(request := false, answer := Some(true), log := After(run).log + [Deactivated, Activated])
  {
    run' := Then(run, Communicate(true));
    run' := Then(run', Communicate(true));
    run' := Then(run', Communicate(true));
    run' := Then(run', Communicate(true));
    run' := Then(run', Communicate(true));
    var log := After(run).log;
    assert log + [Deactivated] + [Activated] == log + [Deactivated, Activated];
  }

  /** The answer is brought back, and the call takes it. */
  lemma BringsBack(run: seq<Label>, id: nat) returns (run': seq<Label>)
    requires var s := After(run); s.answer == Some(true) && s.control == CheckAnswer && id in s.calls && s.calls[id].pc == Polling
    ensures run <= run' && id in After(run').calls && After(run').calls[id].pc == Returned(true)
    ensures After(run').log == After(run).log
  {
    run' := Then(run, Control);
    run' := Then(run', Control);
    run' := Then(run', Service(id));
  }

  /** However the runs before it went, a call that begins alone can be carried out with one reactivation and then returns success. */
  lemma LoneCallCanReturn(run: seq<Label>, id: nat) returns (run': seq<Label>)
    requires OneAtATime(run) && Idle(After(run)) && id !in After(run).calls
    ensures run <= run' && id in After(run').calls && After(run').calls[id].pc == Returned(true)
    ensures After(run').log == After(run).log + [Deactivated, Activated]
  {
    AfterInvariant(run);
    run' := ComesToRest(run);
    run' := PassesOn(run', id);
    run' := CarriesOut(run');
    run' := BringsBack(run', id);
  }

  // ---------------------------------------------------------------- the hardware interface

  /** The shared variables and the two threads of the hardware interface, each thread run without interruption. */
  class Hardware {
    var command: bool
    var response: Option<bool>
    var request: bool
    var answer: Option<bool>
    ghost var control: ControlPc
    ghost var comm: CommPc
    ghost var log: seq<Event>
    ghost var calls: map<nat, Call>

    ghost function Contents(): State
      reads this
    {
      State(command, response, request, answer, control, comm, log, calls)
    }

    constructor ()
      ensures Contents() == INITIAL
    {
      command, response, request, answer := false, Some(false), false, None;
      control, comm, log, calls := CheckCommand, CheckRequest, [], map[];
    }

    /** `read`: the command is passed on, and an answer brought back. */
    method Read()
      requires control == CheckCommand
      modifies this`command, this`response, this`request, this`answer, this`control
      ensures control == CheckCommand
      ensures var s := old(Contents());
        var t := if s.command then ControlStep(ControlStep(s)) else ControlStep(s);
        Contents() == if s.answer.Some? then ControlStep(ControlStep(ControlStep(t))) else ControlStep(t)
    {
      if command {
        request := true;
        command := false;
      }
      control := CheckAnswer;
      if answer.Some? {
        response := answer;
        answer := None;
      }
      control := CheckCommand;
    }

    /** The reactivation in one round of `background_task`; false when a driver call throws. */
    method Reactivate(deactivates: bool, activates: bool) returns (ok: bool)
      requires comm == CheckRequest
      modifies this`request, this`answer, this`comm, this`log
      ensures comm == CheckRequest && ok == (old(request) ==> deactivates && activates)
      ensures var s := old(Contents());
        Contents() ==
          if !s.request then s
          else
            var d := CommStep(CommStep(s, true), deactivates);
            if !deactivates then d
            else if !activates then CommStep(d, false)
            else CommStep(CommStep(CommStep(d, true), true), true)
    {
      if !request {
        return true;
      }
      if !deactivates {
        return false;
      }
      log := log + [Deactivated];
      if !activates {
        return false;
      }
      log := log + [Activated];
      request := false;
      answer := Some(true);
      ok := true;
    }

    /** `reactivateGripper`: marks the response as waiting, sets the command and polls the response until it is there. */
    method ReactivateGripper(id: nat, responses: seq<Option<bool>>) returns (success: Option<bool>)
      requires id !in calls
      modifies this`command, this`response, this`calls
      ensures Contents() == CallStep(BeginCall(old(Contents()), id), id)
      ensures success.None? ==> forall k :: 0 <= k < |responses| ==> responses[k].None?
      ensures success.Some? ==> exists k :: 0 <= k < |responses| && responses[k] == success && forall j :: 0 <= j < k ==> responses[j].None?
    {
      response := None;
      calls := calls[id := Call(SetCommand, |log|)];
      command := true;
      calls := calls[id := calls[id].(pc := Polling)];
      var k := 0;
      while k < |responses| && responses[k].None?
        invariant 0 <= k <= |responses|
        invariant forall j :: 0 <= j < k ==> responses[j].None?
      {
        k := k + 1;
      }
      return if k < |responses| then responses[k] else None;
    }
  }
}
