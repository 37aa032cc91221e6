/** What every reachable state of the controller keeps, whatever the interleaving. */
module ControllerInvariants {
  import opened Backend
  import opened Controller
  import opened Messages
  import opened Wrappers

  // ---------------------------------------------------------------- the shape of one thread

  /** How many answered commands make the operation succeed. */
  function Needed(op: Operation): nat {
    match op
    case Activate(_) => 2
    case Stop => 0
    case _ => 1
  }

  function RequestAt(op: Operation, stage: nat): Request {
    if op.Activate? && stage == 1 then ActivationRequest(op.mode) else FirstRequest(op)
  }

  predicate Publishing(t: Thread) {
    t.pc == Store || t.pc == Send
  }

  predicate Working(t: Thread) {
    t.pc == Allocate || Publishing(t) || t.pc == Wait
  }

  /** An answered exchange of an operation. */
  predicate Fulfilled(t: Thread, k: nat)
    requires k < |t.exchanges|
  {
    var x := t.exchanges[k];
    && x.command.request == RequestAt(t.op, k)
    && x.reply.connected && x.reply.connection == t.connection && x.reply.lastCommand == x.command.id
    && Awaited(t.op, k, x.reply.device)
  }

  predicate StopShape(t: Thread) {
    && t.exchanges == [] && !t.stopping && t.pc != Wait && t.pc != Release
  }

  predicate Shape(t: Thread) {
    && |t.exchanges| <= Needed(t.op)
    && (forall k :: 0 <= k < |t.exchanges| ==> Fulfilled(t, k))
    && (t.op.Stop? ==> StopShape(t))
    && (t.pc == Copy ==> t.op.Stop?)
    && (t.pc in {Begin, Snapshot, Copy} ==> t.exchanges == [] && !t.stopping)
    && (t.stopping ==> t.op.Motion? && t.exchanges == [] && t.pc != Wait && t.outcome == Failed)
    && (Working(t) && t.stopping ==> t.command.request == MotionRequest(t.op.goal).(goTo := false))
    && (Working(t) && !t.stopping && !t.op.Stop? ==>
          |t.exchanges| < Needed(t.op) && t.command.request == RequestAt(t.op, |t.exchanges|))
    && (t.pc in {Begin, Snapshot, Copy} || Working(t) ==> t.outcome == Undecided || t.stopping)
    && (t.pc == Release || t.pc == Done ==> t.outcome != Undecided)
    && (t.outcome == Succeeded ==> |t.exchanges| == Needed(t.op))
    && (t.outcome == Succeeded && !t.op.Stop? ==> t.seen == t.exchanges[|t.exchanges| - 1].reply)
    && (t.outcome == Succeeded && t.op.Motion? ==> !Faulted(t.seen.device))
  }

  lemma AnswerShape(t: Thread)
    requires Shape(t) && t.pc == Wait && !t.op.Stop?
    requires t.seen.connected && t.seen.connection == t.connection && t.seen.lastCommand == t.command.id
    requires Awaited(t.op, |t.exchanges|, t.seen.device)
    ensures Shape(Answer(t))
  {
    var u := Answer(t);
    forall k | 0 <= k < |u.exchanges|
      ensures Fulfilled(u, k)
    {
      if k < |t.exchanges| {
        assert Fulfilled(t, k);
      }
    }
  }

  lemma GiveUpShape(t: Thread)
    requires Shape(t) && t.pc == Wait
    ensures Shape(GiveUp(t))
  {
    var u := GiveUp(t);
    forall k | 0 <= k < |u.exchanges|
      ensures Fulfilled(u, k)
    {
      assert Fulfilled(t, k);
    }
  }

  lemma SeenShape(t: Thread, s: Status)
    requires Shape(t) && t.pc == Wait
    ensures Shape(t.(seen := s))
  {
    forall k | 0 <= k < |t.exchanges|
      ensures Fulfilled(t.(seen := s), k)
    {
      assert Fulfilled(t, k);
    }
  }

  lemma PollShape(t: Thread, current: Option<Status>, ch: Choice)
    requires Shape(t) && t.pc == Wait
    ensures Shape(Poll(t, current, ch))
  {
    GiveUpShape(t);
    if current.Some? {
      var u := t.(seen := current.value);
      SeenShape(t, current.value);
      GiveUpShape(u);
      if u.seen.connected && u.seen.connection == t.connection && u.seen.lastCommand == t.command.id &&
         Awaited(t.op, |t.exchanges|, u.seen.device) {
        AnswerShape(u);
      }
    }
  }

  lemma AdvanceShape(s: System, t: Thread, ch: Choice)
    requires Shape(t)
    ensures Shape(Advance(s, t, ch))
  {
    if t.pc == Wait {
      PollShape(t, s.current, ch);
    } else {
      var u := Advance(s, t, ch);
      assert u.exchanges == t.exchanges && u.op == t.op;
      forall k | 0 <= k < |u.exchanges|
        ensures Fulfilled(u, k)
      {
        assert Fulfilled(t, k);
      }
    }
  }

  ghost predicate Shapes(s: System) {
    forall id :: id in s.threads ==> Shape(s.threads[id])
  }

  lemma StepShapes(s: System, l: Label)
    requires Shapes(s)
    ensures Shapes(Step(s, l))
  {
    if l.Run? && l.id in s.threads {
      var t := s.threads[l.id];
      AdvanceShape(s, t, l.choice);
      assert Step(s, l).threads == s.threads[l.id := Advance(s, t, l.choice)];
    }
  }

  // ---------------------------------------------------------------- identifiers

  ghost predicate UniqueIds(sent: set<Command>) {
    forall c, d :: c in sent && d in sent && c.id == d.id ==> c == d
  }

  predicate Unsent(sent: set<Command>, id: nat) {
    forall c :: c in sent ==> c.id != id
  }

  /** An id that is taken and not yet sent belongs to one thread; a thread that waits has sent its command. */
  predicate HasId(sent: set<Command>, issued: nat, t: Thread) {
    && (Publishing(t) ==> 0 < t.command.id <= issued && Unsent(sent, t.command.id))
    && (t.pc == Wait ==> t.command in sent)
  }

  predicate Clash(t: Thread, u: Thread) {
    Publishing(t) && Publishing(u) && t.command.id == u.command.id
  }

  ghost predicate DistinctIds(threads: map<nat, Thread>) {
    forall i, j :: i in threads && j in threads && i != j ==> !Clash(threads[i], threads[j])
  }

  /** Ids are taken once, and those taken and not yet sent are all different. */
  ghost predicate Ids(s: System) {
    && (forall c :: c in s.sent ==> 0 < c.id <= s.issued)
    && UniqueIds(s.sent)
    && (forall i :: i in s.threads ==> HasId(s.sent, s.issued, s.threads[i]))
    && DistinctIds(s.threads)
  }

  /** A step of one thread that takes no id and sends nothing. */
  lemma IdsUnmoved(s: System, s': System, id: nat, u: Thread)
    requires Ids(s) && id in s.threads
    requires s'.sent == s.sent && s'.issued == s.issued && s'.threads == s.threads[id := u]
    requires HasId(s.sent, s.issued, u)
    requires Publishing(u) ==> Publishing(s.threads[id]) && u.command == s.threads[id].command
    ensures Ids(s')
  {
    forall i, j | i in s'.threads && j in s'.threads && i != j
      ensures !Clash(s'.threads[i], s'.threads[j])
    {
      assert !Clash(s.threads[i], s.threads[j]);
    }
  }

  lemma IdsTaken(s: System, s': System, id: nat, u: Thread)
    requires Ids(s) && id in s.threads
    requires s'.sent == s.sent && s'.issued == s.issued + 1 && s'.threads == s.threads[id := u]
    requires u.pc == Store && u.command.id == s.issued + 1
    ensures Ids(s')
  {
    forall i | i in s'.threads
      ensures HasId(s'.sent, s'.issued, s'.threads[i])
    {
      assert i != id ==> HasId(s.sent, s.issued, s.threads[i]);
    }
    forall i, j | i in s'.threads && j in s'.threads && i != j
      ensures !Clash(s'.threads[i], s'.threads[j])
    {
      assert !Clash(s.threads[i], s.threads[j]);
      assert HasId(s.sent, s.issued, s.threads[i]) && HasId(s.sent, s.issued, s.threads[j]);
    }
  }

  lemma IdsSent(s: System, s': System, id: nat, u: Thread)
    requires Ids(s) && id in s.threads && s.threads[id].pc == Send
    requires s'.sent == s.sent + {s.threads[id].command} && s'.issued == s.issued && s'.threads == s.threads[id := u]
    requires !Publishing(u) && u.command == s.threads[id].command
    ensures Ids(s')
  {
    var t := s.threads[id];
    assert HasId(s.sent, s.issued, t);
    forall i | i in s'.threads
      ensures HasId(s'.sent, s'.issued, s'.threads[i])
    {
      if i != id {
        assert HasId(s.sent, s.issued, s.threads[i]);
        assert !Clash(t, s.threads[i]);
      }
    }
    forall i, j | i in s'.threads && j in s'.threads && i != j
      ensures !Clash(s'.threads[i], s'.threads[j])
    {
      assert !Clash(s.threads[i], s.threads[j]);
    }
  }

  lemma NextIdSmall(issued: nat)
    requires issued + 1 < WRAP
    ensures NextId(issued) == issued + 1
  {
  }

  /** Where a thread that publishes or waits came from. */
  lemma AdvanceCommand(s: System, t: Thread, ch: Choice)
    requires Shape(t)
    ensures var u := Advance(s, t, ch);
      && (Publishing(u) ==> t.pc == Allocate || t.pc == Store)
      && (u.pc == Wait ==> t.pc == Send || t.pc == Wait)
      && (t.pc == Store || t.pc == Send || u.pc == Wait ==> u.command == t.command)
      && (t.pc == Allocate ==> u.pc == Store && u.command.id == NextId(s.issued))
  {
  }

  lemma StepIds(s: System, l: Label)
    requires Ids(s) && Shapes(s) && Step(s, l).issued < WRAP
    ensures Ids(Step(s, l))
  {
    if l.Run? && l.id in s.threads {
      RunIds(s, l.id, l.choice);
    } else if l.Start? && l.id !in s.threads {
      IdsStarted(s, l.id, l.op);
    }
  }

  lemma RunIds(s: System, id: nat, ch: Choice)
    requires Ids(s) && id in s.threads && Shape(s.threads[id]) && RunThread(s, id, ch).issued < WRAP
    ensures Ids(RunThread(s, id, ch))
  {
    var t := s.threads[id];
    var u := Advance(s, t, ch);
    var s' := RunThread(s, id, ch);
    AdvanceCommand(s, t, ch);
    assert HasId(s.sent, s.issued, t);
    if t.pc == Allocate {
      NextIdSmall(s.issued);
      IdsTaken(s, s', id, u);
    } else if t.pc == Send {
      IdsSent(s, s', id, u);
    } else {
      IdsUnmoved(s, s', id, u);
    }
  }

  lemma IdsStarted(s: System, id: nat, op: Operation)
    requires Ids(s) && id !in s.threads
    ensures Ids(s.(threads := s.threads[id := NewThread(op)]))
  {
    var s' := s.(threads := s.threads[id := NewThread(op)]);
    forall i, j | i in s'.threads && j in s'.threads && i != j
      ensures !Clash(s'.threads[i], s'.threads[j])
    {
      if i != id && j != id {
        assert !Clash(s.threads[i], s.threads[j]);
      }
    }
  }
}
