/** What each operation publishes, in order, and how a failed motion ends. */
module ControllerScripts {
  import opened Backend
  import opened Controller
  import opened ControllerInvariants
  import opened Messages
  import opened Wrappers

  /** The requests one thread has published. */
  function RequestsOf(ps: seq<Publication>, id: nat): seq<Request> {
    if ps == [] then []
    else
      var last := ps[|ps| - 1];
      RequestsOf(ps[..|ps| - 1], id) + (if last.thread == id then [last.command.request] else [])
  }

  /** All an operation may publish; a motion's second request is its own without the go-to bit. */
  function Script(op: Operation): seq<Request> {
    match op
    case Activate(mode) => [ZERO_REQUEST, ActivationRequest(mode)]
    case Deactivate => [ZERO_REQUEST]
    case Motion(goal) => [MotionRequest(goal), MotionRequest(goal).(goTo := false)]
    case Stop => []
  }

  /** The last status the thread looked at shows its own connection up. */
  predicate StillThere(t: Thread) {
    t.seen.connected && t.seen.connection == t.connection
  }

  /** How far along its script an operation is. */
  predicate AtLine(t: Thread, n: nat) {
    match t.pc
    case Begin => n == 0
    case Snapshot => n == 0
    case Copy => false
    case Wait => n == |t.exchanges| + 1
    case Allocate => n == |t.exchanges| + if t.stopping then 1 else 0
    case Store => n == |t.exchanges| + if t.stopping then 1 else 0
    case Send => n == |t.exchanges| + if t.stopping then 1 else 0
    case _ =>
      if t.stopping then n == 2
      else n == |t.exchanges| || (n == |t.exchanges| + 1 && t.outcome == Failed && (t.op.Motion? ==> !StillThere(t)))
  }

  /** What was published is a beginning of the script, as long as the thread's place in the code says. */
  predicate OnScript(t: Thread, requests: seq<Request>) {
    !t.op.Stop? ==> requests <= Script(t.op) && AtLine(t, |requests|)
  }

  ghost predicate Scripted(s: System) {
    && (forall k :: 0 <= k < |s.published| ==> s.published[k].thread in s.threads)
    && (forall i :: i in s.threads ==> OnScript(s.threads[i], RequestsOf(s.published, i)))
  }

  lemma {:induction false} NothingOf(ps: seq<Publication>, id: nat)
    requires forall k :: 0 <= k < |ps| ==> ps[k].thread != id
    ensures RequestsOf(ps, id) == []
  {
    if ps != [] {
      NothingOf(ps[..|ps| - 1], id);
    }
  }

  lemma RequestsAfter(ps: seq<Publication>, p: Publication, id: nat)
    ensures RequestsOf(ps + [p], id) == RequestsOf(ps, id) + (if p.thread == id then [p.command.request] else [])
  {
    assert (ps + [p])[..|ps|] == ps;
  }

  lemma PollScript(t: Thread, current: Option<Status>, ch: Choice, requests: seq<Request>)
    requires Shape(t) && t.pc == Wait && !t.op.Stop? && OnScript(t, requests)
    ensures OnScript(Poll(t, current, ch), requests)
  {
  }

  lemma AdvanceScript(s: System, t: Thread, ch: Choice, requests: seq<Request>)
    requires Shape(t) && OnScript(t, requests) && t.pc != Send
    ensures OnScript(Advance(s, t, ch), requests)
  {
    if t.pc == Wait && !t.op.Stop? {
      PollScript(t, s.current, ch, requests);
    }
  }

  lemma SendScript(s: System, t: Thread, ch: Choice, requests: seq<Request>)
    requires Shape(t) && OnScript(t, requests) && t.pc == Send
    ensures OnScript(Advance(s, t, ch), requests + [t.command.request])
  {
    if !t.op.Stop? {
      var n := |requests|;
      assert n < |Script(t.op)| && Script(t.op)[n] == t.command.request;
      assert Script(t.op)[..n] == requests;
      assert Script(t.op)[..n + 1] == requests + [t.command.request];
    }
  }

  lemma SentScripted(s: System, s': System, id: nat, u: Thread)
    requires Scripted(s) && id in s.threads && s'.threads == s.threads[id := u]
    requires s'.published == s.published + [Publication(id, s.threads[id].command)]
    requires OnScript(u, RequestsOf(s.published, id) + [s.threads[id].command.request])
    ensures Scripted(s')
  {
    forall i | i in s'.threads
      ensures OnScript(s'.threads[i], RequestsOf(s'.published, i))
    {
      RequestsAfter(s.published, Publication(id, s.threads[id].command), i);
    }
  }

  lemma RunScripted(s: System, id: nat, ch: Choice)
    requires Scripted(s) && id in s.threads && Shape(s.threads[id])
    ensures Scripted(RunThread(s, id, ch))
  {
    var t := s.threads[id];
    if t.pc == Send {
      SendScript(s, t, ch, RequestsOf(s.published, id));
      SentScripted(s, RunThread(s, id, ch), id, Advance(s, t, ch));
    } else {
      AdvanceScript(s, t, ch, RequestsOf(s.published, id));
    }
  }

  lemma StepScripted(s: System, l: Label)
    requires Scripted(s) && Shapes(s)
    ensures Scripted(Step(s, l))
  {
    if l.Run? && l.id in s.threads {
      RunScripted(s, l.id, l.choice);
    } else if l.Start? && l.id !in s.threads {
      NothingOf(s.published, l.id);
    }
  }

  // ---------------------------------------------------------------- whose commands are answered

  /** The commands a thread waits for or has had answered are its own publications. */
  ghost predicate Own(ps: seq<Publication>, id: nat, t: Thread) {
    && (forall k :: 0 <= k < |t.exchanges| ==> Publication(id, t.exchanges[k].command) in ps)
    && (t.pc == Wait ==> Publication(id, t.command) in ps)
  }

  ghost predicate Owned(s: System) {
    forall i :: i in s.threads ==> Own(s.published, i, s.threads[i])
  }

  lemma AdvanceOwn(s: System, id: nat, t: Thread, ch: Choice)
    requires Own(s.published, id, t) && Shape(t)
    ensures t.pc != Send ==> Own(s.published, id, Advance(s, t, ch))
    ensures t.pc == Send ==> Own(s.published + [Publication(id, t.command)], id, Advance(s, t, ch))
  {
    var u := Advance(s, t, ch);
    AdvanceCommand(s, t, ch);
    forall k | 0 <= k < |u.exchanges|
      ensures Publication(id, u.exchanges[k].command) in s.published
    {
      if k < |t.exchanges| {
        assert u.exchanges[k] == t.exchanges[k];
      }
    }
  }

  lemma StepOwned(s: System, l: Label)
    requires Owned(s) && Shapes(s)
    ensures Owned(Step(s, l))
  {
    if l.Run? && l.id in s.threads {
      AdvanceOwn(s, l.id, s.threads[l.id], l.choice);
    }
  }

  /** The script of an operation that has succeeded. */
  lemma SucceededScript(t: Thread, requests: seq<Request>)
    requires Shape(t) && OnScript(t, requests) && t.pc == Done && t.outcome == Succeeded && !t.op.Stop?
    ensures requests == if t.op.Motion? then [MotionRequest(t.op.goal)] else Script(t.op)
  {
    assert requests == Script(t.op)[..|requests|];
  }
}
