/** How the operations of the controller exclude one another, and what each of them publishes. */
module ControllerExclusion {
  import opened Backend
  import opened Controller
  import opened ControllerInvariants
  import opened Messages
  import opened Wrappers

  // ---------------------------------------------------------------- the busy flag

  /** The thread is past `begin_operation` and has not released the flag. */
  predicate Holds(t: Thread) {
    !t.op.Stop? && t.pc != Begin && t.pc != Done
  }

  predicate HoldsAt(threads: map<nat, Thread>, i: nat) {
    i in threads && Holds(threads[i])
  }

  /** The flag is set exactly while one operation, and only one, is under way. */
  ghost predicate Exclusive(busy: bool, threads: map<nat, Thread>) {
    && (forall i, j :: HoldsAt(threads, i) && HoldsAt(threads, j) ==> i == j)
    && (busy <==> exists i :: HoldsAt(threads, i))
  }

  lemma StepExclusive(s: System, l: Label)
    requires Exclusive(s.busy, s.threads) && Shapes(s)
    ensures Exclusive(Step(s, l).busy, Step(s, l).threads)
  {
    if l.Run? && l.id in s.threads {
      RunExclusive(s, l.id, l.choice);
    } else if l.Start? && l.id !in s.threads {
      SameHolders(s.busy, s.threads, s.threads[l.id := NewThread(l.op)]);
    }
  }

  lemma SameHolders(busy: bool, threads: map<nat, Thread>, threads': map<nat, Thread>)
    requires Exclusive(busy, threads)
    requires forall i :: HoldsAt(threads, i) <==> HoldsAt(threads', i)
    ensures Exclusive(busy, threads')
  {
    if busy {
      var i: nat :| HoldsAt(threads, i);
      assert HoldsAt(threads', i);
    }
  }

  /** Only entering and releasing change whether a thread holds the flag. */
  lemma AdvanceHolds(s: System, t: Thread, ch: Choice)
    requires Shape(t)
    ensures Advance(s, t, ch).op == t.op
    ensures t.pc == Begin ==> (Holds(Advance(s, t, ch)) <==> Enters(s.busy, t))
    ensures t.pc == Release ==> Holds(t) && !Holds(Advance(s, t, ch))
    ensures t.pc != Begin && t.pc != Release ==> (Holds(Advance(s, t, ch)) <==> Holds(t))
  {
  }

  lemma RunExclusive(s: System, id: nat, ch: Choice)
    requires Exclusive(s.busy, s.threads) && id in s.threads && Shape(s.threads[id])
    ensures Exclusive(RunThread(s, id, ch).busy, RunThread(s, id, ch).threads)
  {
    var t := s.threads[id];
    var u := Advance(s, t, ch);
    var s' := RunThread(s, id, ch);
    AdvanceHolds(s, t, ch);
    assert s'.threads == s.threads[id := u];
    assert HoldsAt(s'.threads, id) <==> Holds(u);
    assert HoldsAt(s.threads, id) <==> Holds(t);
    assert forall i :: i != id ==> (HoldsAt(s'.threads, i) <==> HoldsAt(s.threads, i));
    if Holds(u) == Holds(t) {
      SameHolders(s.busy, s.threads, s'.threads);
    }
  }

  // ---------------------------------------------------------------- blocks of publications

  /** Published by an operation other than `stop`. */
  predicate Ordinary(threads: map<nat, Thread>, p: Publication) {
    p.thread in threads && !threads[p.thread].op.Stop?
  }

  predicate Unstarted(t: Thread) {
    t.pc == Begin || t.pc == Snapshot
  }

  ghost predicate Attributed(s: System) {
    forall k :: 0 <= k < |s.published| ==>
      && s.published[k].thread in s.threads
      && s.published[k].command in s.sent
      && !Unstarted(s.threads[s.published[k].thread])
  }

  predicate Unbroken(threads: map<nat, Thread>, p: Publication, q: Publication) {
    Ordinary(threads, p) && Ordinary(threads, q) ==> q.thread == p.thread
  }

  /** Between two publications of one operation there are none of another operation. */
  ghost predicate Blocks(threads: map<nat, Thread>, ps: seq<Publication>) {
    forall i, j, k :: 0 <= i < j < k < |ps| && ps[i].thread == ps[k].thread ==> Unbroken(threads, ps[i], ps[j])
  }

  ghost predicate Increasing(threads: map<nat, Thread>, ps: seq<Publication>) {
    forall i, j :: 0 <= i < j < |ps| && Ordinary(threads, ps[i]) && Ordinary(threads, ps[j]) ==>
                   ps[i].command.id < ps[j].command.id
  }

  /** Since the holder's first publication only it and `stop` have published. */
  ghost predicate Current(threads: map<nat, Thread>, ps: seq<Publication>) {
    forall i, j :: 0 <= i < j < |ps| && HoldsAt(threads, ps[i].thread) && Ordinary(threads, ps[j]) ==>
                   ps[j].thread == ps[i].thread
  }

  ghost predicate Below(threads: map<nat, Thread>, ps: seq<Publication>, id: nat) {
    forall k :: 0 <= k < |ps| && Ordinary(threads, ps[k]) ==> ps[k].command.id < id
  }

  /** The id the holder is about to publish is above all that operations have published. */
  ghost predicate Ahead(threads: map<nat, Thread>, ps: seq<Publication>) {
    forall i :: HoldsAt(threads, i) && Publishing(threads[i]) ==> Below(threads, ps, threads[i].command.id)
  }

  ghost predicate InBlocks(s: System) {
    && Attributed(s)
    && Blocks(s.threads, s.published)
    && Increasing(s.threads, s.published)
    && Current(s.threads, s.published)
    && Ahead(s.threads, s.published)
  }

  predicate SameKinds(threads: map<nat, Thread>, threads': map<nat, Thread>, ps: seq<Publication>) {
    forall k :: 0 <= k < |ps| ==> (Ordinary(threads', ps[k]) <==> Ordinary(threads, ps[k]))
  }

  /** A step that publishes nothing. */
  lemma BlocksUnmoved(s: System, s': System)
    requires InBlocks(s) && Attributed(s') && s'.published == s.published
    requires SameKinds(s.threads, s'.threads, s.published)
    requires forall i :: HoldsAt(s'.threads, i) && !HoldsAt(s.threads, i) ==> Unstarted(s'.threads[i])
    requires Ahead(s'.threads, s.published)
    ensures InBlocks(s')
  {
    forall i, j | 0 <= i < j < |s.published| && HoldsAt(s'.threads, s.published[i].thread) && Ordinary(s'.threads, s.published[j])
      ensures s.published[j].thread == s.published[i].thread
    {
      assert HoldsAt(s.threads, s.published[i].thread);
      assert Ordinary(s.threads, s.published[j]);
    }
    forall i, j, k | 0 <= i < j < k < |s.published| && s.published[i].thread == s.published[k].thread
      ensures Unbroken(s'.threads, s.published[i], s.published[j])
    {
      assert Unbroken(s.threads, s.published[i], s.published[j]);
      assert Ordinary(s'.threads, s.published[i]) <==> Ordinary(s.threads, s.published[i]);
      assert Ordinary(s'.threads, s.published[j]) <==> Ordinary(s.threads, s.published[j]);
    }
    forall i, j | 0 <= i < j < |s.published| && Ordinary(s'.threads, s.published[i]) && Ordinary(s'.threads, s.published[j])
      ensures s.published[i].command.id < s.published[j].command.id
    {
      assert Ordinary(s.threads, s.published[i]) && Ordinary(s.threads, s.published[j]);
    }
  }

  /** A step that publishes one command. */
  lemma BlocksPublished(s: System, s': System, id: nat)
    requires InBlocks(s) && Attributed(s') && id in s.threads && s.threads[id].pc == Send && id in s'.threads
    requires Exclusive(s.busy, s.threads)
    requires s'.published == s.published + [Publication(id, s.threads[id].command)]
    requires s'.threads == s.threads[id := s'.threads[id]]
    requires s'.threads[id].op == s.threads[id].op && !Publishing(s'.threads[id])
    ensures InBlocks(s')
  {
    var ps := s.published;
    var qs := s'.published;
    var n := |ps|;
    assert forall k :: 0 <= k < n ==> qs[k] == ps[k];
    assert forall p :: Ordinary(s'.threads, p) <==> Ordinary(s.threads, p);
    assert forall i :: HoldsAt(s'.threads, i) ==> HoldsAt(s.threads, i);
    if !s.threads[id].op.Stop? {
      assert HoldsAt(s.threads, id);
    }
    PublishedCurrent(s, s', id);
    PublishedIncreasing(s, s', id);
    PublishedBlocks(s, s', id);
    forall i | HoldsAt(s'.threads, i) && Publishing(s'.threads[i])
      ensures Below(s'.threads, qs, s'.threads[i].command.id)
    {
      assert i != id && HoldsAt(s.threads, i) && s.threads[i] == s'.threads[i];
      assert Below(s.threads, ps, s.threads[i].command.id);
      assert !Ordinary(s.threads, qs[n]);
    }
  }

  ghost predicate Publishes(s: System, s': System, id: nat) {
    && InBlocks(s) && Exclusive(s.busy, s.threads)
    && id in s.threads && s.threads[id].pc == Send
    && (!s.threads[id].op.Stop? ==> HoldsAt(s.threads, id))
    && s'.published == s.published + [Publication(id, s.threads[id].command)]
    && (forall p :: Ordinary(s'.threads, p) <==> Ordinary(s.threads, p))
    && (forall i :: HoldsAt(s'.threads, i) ==> HoldsAt(s.threads, i))
  }

  lemma PublishedCurrent(s: System, s': System, id: nat)
    requires Publishes(s, s', id)
    ensures Current(s'.threads, s'.published)
  {
    var qs := s'.published;
    forall i, j | 0 <= i < j < |qs| && HoldsAt(s'.threads, qs[i].thread) && Ordinary(s'.threads, qs[j])
      ensures qs[j].thread == qs[i].thread
    {
      assert HoldsAt(s.threads, qs[i].thread) && Ordinary(s.threads, qs[j]);
      if j < |s.published| {
        assert qs[i] == s.published[i] && qs[j] == s.published[j];
      }
    }
  }

  lemma PublishedIncreasing(s: System, s': System, id: nat)
    requires Publishes(s, s', id)
    ensures Increasing(s'.threads, s'.published)
  {
    var qs := s'.published;
    forall i, j | 0 <= i < j < |qs| && Ordinary(s'.threads, qs[i]) && Ordinary(s'.threads, qs[j])
      ensures qs[i].command.id < qs[j].command.id
    {
      assert Ordinary(s.threads, qs[i]) && Ordinary(s.threads, qs[j]);
      assert qs[i] == s.published[i];
      if j < |s.published| {
        assert qs[j] == s.published[j];
      } else {
        assert Below(s.threads, s.published, s.threads[id].command.id);
      }
    }
  }

  lemma PublishedBlocks(s: System, s': System, id: nat)
    requires Publishes(s, s', id)
    ensures Blocks(s'.threads, s'.published)
  {
    var qs := s'.published;
    forall i, j, k | 0 <= i < j < k < |qs| && qs[i].thread == qs[k].thread
      ensures Unbroken(s'.threads, qs[i], qs[j])
    {
      assert qs[i] == s.published[i] && qs[j] == s.published[j];
      if k < |s.published| {
        assert qs[k] == s.published[k];
        assert Unbroken(s.threads, qs[i], qs[j]);
      } else if Ordinary(s.threads, qs[i]) && Ordinary(s.threads, qs[j]) {
        assert HoldsAt(s.threads, qs[i].thread);
      }
    }
  }

  lemma RunAttributed(s: System, id: nat, ch: Choice)
    requires Attributed(s) && id in s.threads
    ensures Attributed(RunThread(s, id, ch))
  {
    var t := s.threads[id];
    var s' := RunThread(s, id, ch);
    LeavesStart(s, t, ch);
    forall k | 0 <= k < |s'.published|
      ensures s'.published[k].thread in s'.threads && s'.published[k].command in s'.sent
      ensures !Unstarted(s'.threads[s'.published[k].thread])
    {
      if k < |s.published| {
        assert s'.published[k] == s.published[k];
      }
    }
  }

  lemma LeavesStart(s: System, t: Thread, ch: Choice)
    ensures !Unstarted(t) ==> !Unstarted(Advance(s, t, ch))
    ensures t.pc == Send ==> !Publishing(Advance(s, t, ch))
    ensures Publishing(Advance(s, t, ch)) ==> t.pc == Allocate || t.pc == Store
    ensures Publishing(Advance(s, t, ch)) && t.pc == Store ==> Advance(s, t, ch).command == t.command
  {
  }

  lemma StepBlocks(s: System, l: Label)
    requires InBlocks(s) && Exclusive(s.busy, s.threads) && Shapes(s) && Ids(s) && Step(s, l).issued < WRAP
    ensures InBlocks(Step(s, l))
  {
    if l.Run? && l.id in s.threads {
      RunBlocks(s, l.id, l.choice);
    } else if l.Start? && l.id !in s.threads {
      StartBlocks(s, l.id, l.op);
    } else {
      OtherBlocks(s, Step(s, l));
    }
  }

  lemma OtherBlocks(s: System, s': System)
    requires InBlocks(s) && s'.threads == s.threads && s'.published == s.published && s'.sent == s.sent
    ensures InBlocks(s')
  {
  }

  lemma StartBlocks(s: System, id: nat, op: Operation)
    requires InBlocks(s) && id !in s.threads
    ensures InBlocks(s.(threads := s.threads[id := NewThread(op)]))
  {
    var s' := s.(threads := s.threads[id := NewThread(op)]);
    assert SameKinds(s.threads, s'.threads, s.published);
    forall i | HoldsAt(s'.threads, i) && Publishing(s'.threads[i])
      ensures Below(s'.threads, s.published, s'.threads[i].command.id)
    {
      assert HoldsAt(s.threads, i);
      assert Below(s.threads, s.published, s.threads[i].command.id);
    }
    BlocksUnmoved(s, s');
  }

  lemma RunBlocks(s: System, id: nat, ch: Choice)
    requires InBlocks(s) && Exclusive(s.busy, s.threads) && Ids(s)
    requires id in s.threads && Shape(s.threads[id]) && RunThread(s, id, ch).issued < WRAP
    ensures InBlocks(RunThread(s, id, ch))
  {
    var t := s.threads[id];
    var u := Advance(s, t, ch);
    var s' := RunThread(s, id, ch);
    AdvanceHolds(s, t, ch);
    LeavesStart(s, t, ch);
    RunAttributed(s, id, ch);
    if t.pc == Send {
      BlocksPublished(s, s', id);
    } else {
      AdvanceCommand(s, t, ch);
      EntersUnstarted(s, t, ch);
      if t.pc == Allocate {
        NextIdSmall(s.issued);
      }
      QuietBlocks(s, s', id, u);
    }
  }

  lemma QuietBlocks(s: System, s': System, id: nat, u: Thread)
    requires InBlocks(s) && Ids(s) && Attributed(s') && id in s.threads
    requires s'.threads == s.threads[id := u] && s'.published == s.published && u.op == s.threads[id].op
    requires Holds(u) && !Holds(s.threads[id]) ==> Unstarted(u)
    requires Publishing(u) ==> s.threads[id].pc == Store || s.threads[id].pc == Allocate
    requires s.threads[id].pc == Store ==> Holds(u) == Holds(s.threads[id]) && u.command == s.threads[id].command
    requires s.threads[id].pc == Allocate ==> u.command.id == s.issued + 1
    ensures InBlocks(s')
  {
    assert SameKinds(s.threads, s'.threads, s.published);
    RunAhead(s, s', id, u);
    BlocksUnmoved(s, s');
  }

  lemma EntersUnstarted(s: System, t: Thread, ch: Choice)
    ensures Enters(s.busy, t) ==> Unstarted(Advance(s, t, ch))
  {
  }

  lemma RunAhead(s: System, s': System, id: nat, u: Thread)
    requires InBlocks(s) && Ids(s) && id in s.threads && s'.threads == s.threads[id := u] && s'.published == s.published
    requires SameKinds(s.threads, s'.threads, s.published)
    requires Publishing(u) ==> s.threads[id].pc == Store || s.threads[id].pc == Allocate
    requires s.threads[id].pc == Store ==> Holds(u) == Holds(s.threads[id]) && u.command == s.threads[id].command
    requires s.threads[id].pc == Allocate ==> u.command.id == s.issued + 1
    ensures Ahead(s'.threads, s.published)
  {
    forall i | HoldsAt(s'.threads, i) && Publishing(s'.threads[i])
      ensures Below(s'.threads, s.published, s'.threads[i].command.id)
    {
      if i != id || s.threads[id].pc == Store {
        assert HoldsAt(s.threads, i);
        assert Below(s.threads, s.published, s.threads[i].command.id);
      }
      forall k | 0 <= k < |s.published| && Ordinary(s'.threads, s.published[k])
        ensures s.published[k].command.id < s'.threads[i].command.id
      {
        assert Ordinary(s.threads, s.published[k]);
        assert s.published[k].command in s.sent;
      }
    }
  }
}
