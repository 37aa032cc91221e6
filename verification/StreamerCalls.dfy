/** A whole call of the zero service, whatever else happens while it waits. */
module StreamerCalls {
  import opened Streamer
  import opened Wrappers
  import opened Zeroing

  predicate CompletedBy<V>(results: seq<Finished<V>>, generation: nat) {
    exists k :: 0 <= k < |results| && results[k].result.generation == generation
  }

  /** Generations are completed in the order in which they were requested, and an active one is the latest and not completed. */
  ghost predicate Sequenced<V>(x: System<V>) {
    && (forall k :: 0 <= k < |x.results| ==> x.results[k].result.generation <= |x.orders|)
    && (forall j, k :: 0 <= j < k < |x.results| ==> x.results[j].result.generation < x.results[k].result.generation)
    && (x.zero.active.Some? ==>
          && x.zero.active.value == |x.orders|
          && forall k :: 0 <= k < |x.results| ==> x.results[k].result.generation < |x.orders|)
  }

  lemma ArrivesSequenced<V>(ops: Vector<V>, x: System<V>, sample: V)
    requires Sequenced(x)
    ensures Sequenced(Step(ops, x, Arrives(sample)))
  {
  }

  lemma StepSequenced<V>(ops: Vector<V>, x: System<V>, l: Label<V>)
    requires Sequenced(x) && Settled(ops, x)
    ensures Sequenced(Step(ops, x, l))
  {
    if l.Arrives? {
      ArrivesSequenced(ops, x, l.sample);
    }
  }

  lemma {:induction false} AfterSequenced<V>(ops: Vector<V>, run: seq<Label<V>>)
    ensures Sequenced(After(ops, run))
  {
    if run != [] {
      AfterSequenced(ops, run[..|run| - 1]);
      AfterInvariant(ops, run[..|run| - 1]);
      StepSequenced(ops, After(ops, run[..|run| - 1]), run[|run| - 1]);
    }
  }

  // ---------------------------------------------------------------- what a stretch of a run adds

  /** No other caller asks for a collection. */
  predicate NoRequest<V>(labels: seq<Label<V>>) {
    forall k :: 0 <= k < |labels| ==> !labels[k].Requested?
  }

  /** Since a state with `results`, only collections from generation `g` on have been completed. */
  ghost predicate Since<V>(results: seq<Finished<V>>, g: nat, x: System<V>) {
    && g <= |x.orders| && results <= x.results
    && forall k :: |results| <= k < |x.results| ==> x.results[k].result.generation >= g
  }

  lemma SinceStep<V>(ops: Vector<V>, results: seq<Finished<V>>, g: nat, x: System<V>, l: Label<V>)
    requires Since(results, g, x) && Sequenced(x)
    ensures Since(results, g, Step(ops, x, l))
    ensures !l.Requested? ==> Step(ops, x, l).orders == x.orders
  {
  }

  lemma {:induction false} SinceRun<V>(ops: Vector<V>, results: seq<Finished<V>>, g: nat, run: seq<Label<V>>, call: seq<Label<V>>)
    requires Since(results, g, After(ops, run))
    ensures Since(results, g, After(ops, run + call))
    ensures NoRequest(call) ==> After(ops, run + call).orders == After(ops, run).orders
    decreases |call|
  {
    if call == [] {
      assert run + call == run;
    } else {
      var before, l := call[..|call| - 1], call[|call| - 1];
      assert run + call == run + before + [l];
      SinceRun(ops, results, g, run, before);
      AfterSequenced(ops, run + before);
      AfterAppend(ops, run + before, l);
      SinceStep(ops, results, g, After(ops, run + before), l);
    }
  }

  /** The results of a call that asked for generation `g` when there were `results`. */
  ghost predicate CallAdds<V>(ops: Vector<V>, results: seq<Finished<V>>, g: nat, t: System<V>) {
    && Since(results, g, t)
    && (CompletedBy(t.results, g) <==> |t.results| > |results| && t.results[|results|].result.generation == g)
    && (forall k :: |results| < k < |t.results| ==> t.results[k].result.generation > g)
  }

  lemma AddsAtMostOne<V>(ops: Vector<V>, results: seq<Finished<V>>, g: nat, t: System<V>)
    requires Since(results, g, t) && Sequenced(t)
    requires forall k :: 0 <= k < |results| ==> results[k].result.generation < g
    ensures CallAdds(ops, results, g, t)
  {
    assert forall k :: 0 <= k < |results| ==> t.results[k] == results[k];
    if CompletedBy(t.results, g) {
      var k :| 0 <= k < |t.results| && t.results[k].result.generation == g;
      assert k >= |results|;
    }
  }

  lemma RequestSince<V>(ops: Vector<V>, run: seq<Label<V>>, count: nat)
    requires count > 0
    ensures var s := After(ops, run); var x := After(ops, run + [Requested(count)]); var g := |s.orders| + 1;
      && Since(s.results, g, x) && |x.orders| == g && x.zero.active == Some(g)
      && (forall k :: 0 <= k < |s.results| ==> s.results[k].result.generation < g)
  {
    AfterSequenced(ops, run);
    AfterInvariant(ops, run);
    AfterAppend(ops, run, Requested(count));
    RequestBegins(ops, After(ops, run), count);
  }

  lemma RequestBegins<V>(ops: Vector<V>, s: System<V>, count: nat)
    requires count > 0 && Sequenced(s) && Settled(ops, s)
    ensures var x := Step(ops, s, Requested(count)); var g := |s.orders| + 1;
      && Since(s.results, g, x) && |x.orders| == g && x.zero.active == Some(g)
      && (forall k :: 0 <= k < |s.results| ==> s.results[k].result.generation < g)
  {
  }

  /**
   * A call asks for a collection, and whatever happens then, other calls, cancellations, reconnects and the
   * shutdown included: at most one result of its own is added, as the first after those there were, and it is
   * well founded; all others are of later calls.
   */
  lemma CallResult<V>(ops: Vector<V>, run: seq<Label<V>>, count: nat, call: seq<Label<V>>)
    requires count > 0
    ensures var s := After(ops, run); var t := After(ops, run + [Requested(count)] + call); CallAdds(ops, s.results, |s.orders| + 1, t)
  {
    var s := After(ops, run);
    var g := |s.orders| + 1;
    RequestSince(ops, run, count);
    SinceRun(ops, s.results, g, run + [Requested(count)], call);
    AfterSequenced(ops, run + [Requested(count)] + call);
    AddsAtMostOne(ops, s.results, g, After(ops, run + [Requested(count)] + call));
  }

  // ---------------------------------------------------------------- what the caller is told

  /** The manager shows a result of this generation, which a waiting caller looks for. */
  predicate Shows<V>(zero: State<V>, generation: nat) {
    zero.completed.Some? && zero.completed.value.generation == generation
  }

  /** The bias and the results are those of before the call. */
  predicate Retained<V(==)>(s: System<V>, t: System<V>) {
    t.results == s.results && t.zero.offset == s.zero.offset
  }

  /** The call's own mean is the one result more, and is the bias. */
  predicate ReplacedBy<V(==)>(s: System<V>, t: System<V>, generation: nat) {
    && |t.results| == |s.results| + 1 && t.results[..|s.results|] == s.results
    && t.results[|s.results|].result == ZeroResult(generation, t.zero.offset)
  }

  lemma SecondIsLater<V>(ops: Vector<V>, results: seq<Finished<V>>, g: nat, t: System<V>)
    requires CallAdds(ops, results, g, t)
    ensures |t.results| > |results| + 1 ==> t.results[|results| + 1].result.generation > g
  {
  }

  lemma OneOrNone<V>(ops: Vector<V>, s: System<V>, t: System<V>, g: nat)
    requires CallAdds(ops, s.results, g, t) && Sequenced(t) && |t.orders| == g && Settled(ops, s) && Settled(ops, t)
    requires Sequenced(s) && |s.orders| < g
    ensures CompletedBy(t.results, g) <==> Shows(t.zero, g)
    ensures if Shows(t.zero, g) then ReplacedBy(s, t, g) else Retained(s, t)
  {
    var n := |s.results|;
    SecondIsLater(ops, s.results, g, t);
    if |t.results| > n {
      assert t.results[n].result.generation == g;
    } else {
      assert t.results == s.results;
    }
  }

  /**
   * While no other caller asks, the bias in effect after a call is the one before it if and only if the
   * manager shows no result of the call; else it is the mean that the call collected.
   */
  lemma RetainedExactly<V>(ops: Vector<V>, run: seq<Label<V>>, count: nat, call: seq<Label<V>>)
    requires count > 0 && NoRequest(call)
    ensures var s := After(ops, run); var t := After(ops, run + [Requested(count)] + call); var g := |s.orders| + 1;
      && (CompletedBy(t.results, g) <==> Shows(t.zero, g))
      && (if Shows(t.zero, g) then ReplacedBy(s, t, g) else Retained(s, t))
  {
    var s := After(ops, run);
    var x := run + [Requested(count)];
    RequestSince(ops, run, count);
    SinceRun(ops, s.results, |s.orders| + 1, x, call);
    CallResult(ops, run, count, call);
    AfterSequenced(ops, run);
    AfterSequenced(ops, x + call);
    AfterInvariant(ops, run);
    AfterInvariant(ops, x + call);
    OneOrNone(ops, s, After(ops, x + call), |s.orders| + 1);
  }

  /**
   * The reply. A wait that returns has the call's own mean, and that is the bias: a success is always true.
   * A wait that gives up while the node is not shut down finds the bias retained. A failed reply therefore
   * says the truth, after what happens until the cancellation, if and only if the manager then shows no
   * result of the call.
   */
  lemma ReplyIsTrueExactly<V>(ops: Vector<V>, run: seq<Label<V>>, count: nat, before: seq<Label<V>>, late: bool, gap: seq<Label<V>>)
    requires count > 0 && NoRequest(before) && NoRequest(gap)
    ensures var s := After(ops, run); var g := |s.orders| + 1;
      var x := After(ops, run + [Requested(count)] + before);
      var t := After(ops, run + [Requested(count)] + (before + gap + [Cancelled(g)]));
      var look := LookFor(x.zero, g, late);
      && (look.Return? ==> ReplacedBy(s, x, g) && look.result == ZeroResult(g, x.zero.offset))
      && (look.GiveUp? && !x.zero.closed ==> Retained(s, x))
      && (Retained(s, t) <==> !Shows(t.zero, g))
  {
    var g := |After(ops, run).orders| + 1;
    RetainedExactly(ops, run, count, before);
    RetainedExactly(ops, run, count, before + gap + [Cancelled(g)]);
    AfterInvariant(ops, run + [Requested(count)] + before);
  }
}
