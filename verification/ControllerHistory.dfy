/** What the answers the controller waits for say about the device log. */
module ControllerHistory {
  import opened Backend
  import opened Controller
  import opened ControllerInvariants
  import opened Messages
  import opened Wrappers

  /** The command of the exchange was written at `w` and the reply was read at `r`, with only reads between. */
  ghost predicate Answered(log: Log, x: Exchange, w: nat, r: nat) {
    && x.begun <= w
    && InEffect(log, w, r, x.command.id)
    && log[w].command == x.command
    && log[r] == Sampled(log[r].connection, x.reply.device)
    && x.reply.connection == log[r].connection % WRAP
  }

  ghost predicate Met(log: Log, x: Exchange) {
    exists w: nat, r: nat :: Answered(log, x, w, r)
  }

  ghost predicate Unwritten(log: Log, before: nat, id: nat) {
    && before <= |log|
    && (forall k :: 0 <= k < before && IsWrite(log[k]) ==> log[k].command.id != id)
  }

  ghost predicate AllMet(log: Log, xs: seq<Exchange>) {
    forall k :: 0 <= k < |xs| ==> Met(log, xs[k])
  }

  /** Every exchange was answered, and before the next one's command was on its way. */
  ghost predicate History(log: Log, t: Thread) {
    && AllMet(log, t.exchanges)
    && (|t.exchanges| == 2 ==> t.exchanges[1].begun <= |log| && Met(log[..t.exchanges[1].begun], t.exchanges[0]))
    && (Publishing(t) || t.pc == Wait ==>
          Unwritten(log, t.begun, t.command.id) && AllMet(log[..t.begun], t.exchanges))
  }

  ghost predicate Histories(s: System) {
    && Contract(s.view, s.sent)
    && (s.current.Some? ==> s.current.value in s.view.statuses)
    && (forall i :: i in s.threads ==> History(s.view.log, s.threads[i]))
  }

  lemma MetStays(log: Log, log': Log, x: Exchange)
    requires Met(log, x) && log <= log'
    ensures Met(log', x)
  {
    var w: nat, r: nat :| Answered(log, x, w, r);
    assert Answered(log', x, w, r);
  }

  lemma HistoryStays(log: Log, log': Log, t: Thread)
    requires History(log, t) && log <= log'
    ensures History(log', t)
  {
    forall k | 0 <= k < |t.exchanges|
      ensures Met(log', t.exchanges[k])
    {
      MetStays(log, log', t.exchanges[k]);
    }
    if |t.exchanges| == 2 {
      assert log'[..t.exchanges[1].begun] == log[..t.exchanges[1].begun];
    }
    if Publishing(t) || t.pc == Wait {
      assert log'[..t.begun] == log[..t.begun];
    }
  }

  /** The heart of the argument: a status that names a fresh command was read after that command was written. */
  lemma ReplyMeans(v: View, sent: set<Command>, x: Exchange)
    requires Contract(v, sent) && UniqueIds(sent)
    requires x.reply in v.statuses && x.reply.connected && x.reply.lastCommand == x.command.id != 0
    requires x.command in sent && Unwritten(v.log, x.begun, x.command.id)
    ensures Met(v.log, x)
  {
    assert Genuine(x.reply, v.log);
    var r: nat :| ReadAt(x.reply, v.log, r);
    var w: nat :| InEffect(v.log, w, r, x.command.id);
    assert IsWrite(v.log[w]);
    assert Answered(v.log, x, w, r);
  }

  lemma AnswerHistory(s: System, t: Thread)
    requires Histories(s) && Ids(s) && Shape(t) && t.pc == Wait && !t.op.Stop?
    requires History(s.view.log, t) && HasId(s.sent, s.issued, t)
    requires t.seen in s.view.statuses && t.seen.connected && t.seen.lastCommand == t.command.id
    ensures History(s.view.log, Answer(t))
  {
    hide Contract, UniqueIds, Met, Awaited;
    var log := s.view.log;
    var x := Exchange(t.command, t.begun, t.seen);
    ReplyMeans(s.view, s.sent, x);
    assert Answer(t).exchanges == t.exchanges + [x];
    MetMore(log, t.exchanges, x);
    if |t.exchanges| == 1 {
      assert Met(log[..t.begun], t.exchanges[0]);
    }
  }

  lemma MetMore(log: Log, xs: seq<Exchange>, x: Exchange)
    requires AllMet(log, xs) && Met(log, x)
    ensures AllMet(log, xs + [x])
  {
  }

  lemma SeenHistory(log: Log, t: Thread, s: Status)
    requires History(log, t)
    ensures History(log, t.(seen := s))
  {
  }

  lemma GiveUpHistory(log: Log, t: Thread)
    requires History(log, t)
    ensures History(log, GiveUp(t))
  {
  }

  lemma PollHistory(s: System, t: Thread, ch: Choice)
    requires Histories(s) && Ids(s) && Shape(t) && t.pc == Wait
    requires History(s.view.log, t) && HasId(s.sent, s.issued, t)
    ensures History(s.view.log, Poll(t, s.current, ch))
  {
    GiveUpHistory(s.view.log, t);
    if s.current.Some? {
      var u := t.(seen := s.current.value);
      SeenShape(t, s.current.value);
      SeenHistory(s.view.log, t, s.current.value);
      GiveUpHistory(s.view.log, u);
      if u.seen.connected && u.seen.lastCommand == t.command.id {
        AnswerHistory(s, u);
      }
    }
  }

  lemma AllocateHistory(s: System, t: Thread)
    requires Histories(s) && Ids(s) && Shape(t) && t.pc == Allocate && s.issued + 1 < WRAP
    requires History(s.view.log, t)
    ensures History(s.view.log, t.(pc := Store, command := t.command.(id := NextId(s.issued)), begun := |s.view.log|))
  {
    NextIdSmall(s.issued);
    assert s.view.log[..|s.view.log|] == s.view.log;
  }

  lemma AdvanceHistory(s: System, t: Thread, ch: Choice)
    requires Histories(s) && Ids(s) && Shape(t) && (t.pc == Allocate ==> s.issued + 1 < WRAP)
    requires History(s.view.log, t) && HasId(s.sent, s.issued, t)
    ensures History(s.view.log, Advance(s, t, ch))
  {
    if t.pc == Wait {
      PollHistory(s, t, ch);
    } else if t.pc == Allocate {
      AllocateHistory(s, t);
    }
  }

  lemma RunHistories(s: System, id: nat, ch: Choice)
    requires Histories(s) && Ids(s) && Shapes(s) && id in s.threads && RunThread(s, id, ch).issued < WRAP
    ensures Histories(RunThread(s, id, ch))
  {
    var t := s.threads[id];
    var s' := RunThread(s, id, ch);
    AdvanceHistory(s, t, ch);
    assert s'.view == s.view && s.sent <= s'.sent;
  }

  lemma WorkHistories(s: System, view: View)
    requires Histories(s) && BackendStep(s.view, s.sent, view)
    ensures Histories(s.(view := view))
  {
    forall i | i in s.threads
      ensures History(view.log, s.threads[i])
    {
      HistoryStays(s.view.log, view.log, s.threads[i]);
    }
  }

  lemma StartHistories(s: System, id: nat, op: Operation)
    requires Histories(s) && id !in s.threads
    ensures Histories(s.(threads := s.threads[id := NewThread(op)]))
  {
  }

  lemma DeliverHistories(s: System, status: Status)
    requires Histories(s) && status in s.view.statuses
    ensures Histories(s.(current := Some(status)))
  {
  }

  lemma StepHistories(s: System, l: Label)
    requires Histories(s) && Ids(s) && Shapes(s) && Step(s, l).issued < WRAP
    ensures Histories(Step(s, l))
  {
    match l
    case Run(id, ch) => if id in s.threads { RunHistories(s, id, ch); }
    case Work(view) => if BackendStep(s.view, s.sent, view) { WorkHistories(s, view); }
    case Start(id, op) => if id !in s.threads { StartHistories(s, id, op); }
    case Deliver(status) => if status in s.view.statuses { DeliverHistories(s, status); }
  }
}
