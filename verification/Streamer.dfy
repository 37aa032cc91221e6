/** The streamer node: one TCP client thread feeding samples to the zeroing manager, and service calls beside it. */
module Streamer {
  import opened SampleParser
  import opened Wrappers
  import opened Zeroing

  // ---------------------------------------------------------------- runs

  /** A sample as it was processed: on which connection, and what became of it. */
  datatype Item<V> = Item(sample: V, connection: nat, outcome: Outcome<V>)

  /** A request: how many samples it wants, and how many had been processed before it. */
  datatype Order = Order(count: nat, at: nat)

  /** A completed result and how many samples had been processed by then. */
  datatype Finished<V> = Finished(result: ZeroResult<V>, at: nat)

  datatype System<V> = System(zero: State<V>, connection: nat, items: seq<Item<V>>, orders: seq<Order>, results: seq<Finished<V>>)

  function Begin<V>(ops: Vector<V>): System<V> {
    System(Initial(ops), 0, [], [], [])
  }

  datatype Label<V> =
    | Connected
    | Arrives(sample: V)
    | Requested(count: nat)
    | Cancelled(generation: nat)
    | Shutdown

  /** One locked section; a new connection restarts an active collection before its first sample. */
  function Step<V>(ops: Vector<V>, x: System<V>, l: Label<V>): System<V> {
    match l
    case Connected => x.(zero := ResetProgress(ops, x.zero), connection := x.connection + 1)
    case Arrives(sample) =>
      var outcome := OutcomeOf(ops, x.zero, sample);
      var y := x.(zero := Process(ops, x.zero, sample), items := x.items + [Item(sample, x.connection, outcome)]);
      if outcome.Completed? then y.(results := x.results + [Finished(outcome.result, |y.items|)]) else y
    case Requested(count) =>
      if count == 0 then x else x.(zero := Request(ops, x.zero, count), orders := x.orders + [Order(count, |x.items|)])
    case Cancelled(generation) => x.(zero := Cancel(x.zero, generation))
    case Shutdown => x.(zero := Close(x.zero))
  }

  function After<V>(ops: Vector<V>, run: seq<Label<V>>): System<V> {
    if run == [] then Begin(ops) else Step(ops, After(ops, run[..|run| - 1]), run[|run| - 1])
  }

  // ---------------------------------------------------------------- where a bias comes from

  function SamplesOf<V>(items: seq<Item<V>>): seq<V> {
    seq(|items|, k requires 0 <= k < |items| => items[k].sample)
  }

  /** All processed on one connection, and none of them emitted. */
  predicate OneConnection<V>(items: seq<Item<V>>, connection: nat) {
    forall k :: 0 <= k < |items| ==> items[k].connection == connection && !items[k].outcome.Corrected?
  }

  /** The `n` samples processed last. */
  function Last<V>(items: seq<Item<V>>, n: nat): seq<Item<V>>
    requires n <= |items|
  {
    items[|items| - n..]
  }

  /**
   * The result is the mean of exactly the requested number of consecutive samples, all after the request,
   * all from one connection and none of them emitted.
   */
  ghost predicate WellFounded<V>(ops: Vector<V>, items: seq<Item<V>>, orders: seq<Order>, f: Finished<V>) {
    && 1 <= f.result.generation <= |orders|
    && var order := orders[f.result.generation - 1];
    && 0 < order.count && order.at + order.count <= f.at <= |items|
    && var used := items[f.at - order.count..f.at];
    && OneConnection(used, used[0].connection)
    && f.result.offset == ops.divide(Sum(ops, SamplesOf(used)), order.count)
  }

  /** The bias in effect after some results. */
  function Bias<V>(ops: Vector<V>, results: seq<Finished<V>>): V {
    if results == [] then ops.zero else results[|results| - 1].result.offset
  }

  ghost predicate Collecting<V>(ops: Vector<V>, x: System<V>) {
    x.zero.active.Some? ==>
      && |x.orders| > 0 && x.zero.active == Some(|x.orders|)
      && var order := x.orders[|x.orders| - 1];
      && x.zero.target == order.count
      && x.zero.count < order.count && order.at + x.zero.count <= |x.items|
      && OneConnection(Last(x.items, x.zero.count), x.connection)
      && x.zero.sums == Sum(ops, SamplesOf(Last(x.items, x.zero.count)))
  }

  ghost predicate Settled<V>(ops: Vector<V>, x: System<V>) {
    && x.zero.generation == |x.orders|
    && x.zero.offset == Bias(ops, x.results)
    && x.zero.completed == (if x.results == [] then None else Some(x.results[|x.results| - 1].result))
    && (forall k :: 0 <= k < |x.orders| ==> x.orders[k].count > 0)
  }

  ghost predicate Invariant<V>(ops: Vector<V>, x: System<V>) {
    && Collecting(ops, x) && Settled(ops, x)
    && (forall k :: 0 <= k < |x.results| ==> WellFounded(ops, x.items, x.orders, x.results[k]))
  }

  lemma SumMore<V>(ops: Vector<V>, items: seq<Item<V>>, n: nat, item: Item<V>)
    requires n <= |items|
    ensures Last(items + [item], n + 1) == Last(items, n) + [item]
    ensures Sum(ops, SamplesOf(Last(items + [item], n + 1))) == ops.plus(Sum(ops, SamplesOf(Last(items, n))), item.sample)
  {
    var l := Last(items, n);
    assert SamplesOf(l + [item]) == SamplesOf(l) + [item.sample];
    assert (SamplesOf(l) + [item.sample])[..n] == SamplesOf(l);
  }

  lemma WellFoundedStays<V>(ops: Vector<V>, items: seq<Item<V>>, orders: seq<Order>, items': seq<Item<V>>, orders': seq<Order>, f: Finished<V>)
    requires WellFounded(ops, items, orders, f) && items <= items' && orders <= orders'
    ensures WellFounded(ops, items', orders', f)
  {
    var order := orders[f.result.generation - 1];
    assert orders'[f.result.generation - 1] == order;
    assert items'[f.at - order.count..f.at] == items[f.at - order.count..f.at];
  }

  /** One more sample of the same connection in a collection. */
  lemma CollectMore<V>(ops: Vector<V>, items: seq<Item<V>>, n: nat, item: Item<V>, sums: V)
    requires !item.outcome.Corrected?
    requires n <= |items| && OneConnection(Last(items, n), item.connection) && sums == Sum(ops, SamplesOf(Last(items, n)))
    ensures OneConnection(Last(items + [item], n + 1), item.connection)
    ensures ops.plus(sums, item.sample) == Sum(ops, SamplesOf(Last(items + [item], n + 1)))
  {
    SumMore(ops, items, n, item);
  }

  lemma ArrivesCollecting<V>(ops: Vector<V>, x: System<V>, sample: V)
    requires Collecting(ops, x) && x.zero.active.Some?
    ensures Collecting(ops, Step(ops, x, Arrives(sample)))
  {
    CollectMore(ops, x.items, x.zero.count, Item(sample, x.connection, OutcomeOf(ops, x.zero, sample)), x.zero.sums);
  }

  lemma IsWellFounded<V>(ops: Vector<V>, items: seq<Item<V>>, orders: seq<Order>, n: nat, connection: nat, f: Finished<V>)
    requires f.at == |items| && f.result.generation == |orders| > 0
    requires orders[|orders| - 1].count == n > 0 && orders[|orders| - 1].at + n <= |items|
    requires OneConnection(Last(items, n), connection) && f.result.offset == ops.divide(Sum(ops, SamplesOf(Last(items, n))), n)
    ensures WellFounded(ops, items, orders, f)
  {
    assert items[f.at - n..f.at] == Last(items, n);
  }

  /** The sample that completes a collection. */
  lemma ArrivesCompletes<V>(ops: Vector<V>, x: System<V>, sample: V)
    requires Collecting(ops, x) && OutcomeOf(ops, x.zero, sample).Completed?
    ensures var y := Step(ops, x, Arrives(sample));
      WellFounded(ops, y.items, y.orders, Finished(OutcomeOf(ops, x.zero, sample).result, |y.items|))
  {
    var outcome := OutcomeOf(ops, x.zero, sample);
    var item := Item(sample, x.connection, outcome);
    CollectMore(ops, x.items, x.zero.count, item, x.zero.sums);
    IsWellFounded(ops, x.items + [item], x.orders, x.zero.count + 1, x.connection, Finished(outcome.result, |x.items| + 1));
  }

  lemma StepResults<V>(ops: Vector<V>, x: System<V>, l: Label<V>)
    requires Invariant(ops, x)
    ensures var y := Step(ops, x, l); forall k :: 0 <= k < |y.results| ==> WellFounded(ops, y.items, y.orders, y.results[k])
  {
    var y := Step(ops, x, l);
    if l.Arrives? && OutcomeOf(ops, x.zero, l.sample).Completed? {
      ArrivesCompletes(ops, x, l.sample);
    }
    forall k | 0 <= k < |y.results|
      ensures WellFounded(ops, y.items, y.orders, y.results[k])
    {
      if k < |x.results| {
        assert y.results[k] == x.results[k];
        WellFoundedStays(ops, x.items, x.orders, y.items, y.orders, x.results[k]);
      }
    }
  }

  lemma ArrivesSettled<V>(ops: Vector<V>, x: System<V>, sample: V)
    requires Settled(ops, x)
    ensures Settled(ops, Step(ops, x, Arrives(sample)))
  {
    var y := Step(ops, x, Arrives(sample));
    if OutcomeOf(ops, x.zero, sample).Completed? {
      assert y.results[|y.results| - 1] == Finished(OutcomeOf(ops, x.zero, sample).result, |y.items|);
    }
  }

  lemma StepSettled<V>(ops: Vector<V>, x: System<V>, l: Label<V>)
    requires Settled(ops, x)
    ensures Settled(ops, Step(ops, x, l))
  {
    if l.Arrives? {
      ArrivesSettled(ops, x, l.sample);
    }
  }

  lemma StepCollecting<V>(ops: Vector<V>, x: System<V>, l: Label<V>)
    requires Invariant(ops, x)
    ensures Collecting(ops, Step(ops, x, l))
  {
    if l.Arrives? && x.zero.active.Some? {
      ArrivesCollecting(ops, x, l.sample);
    }
  }

  lemma StepInvariant<V>(ops: Vector<V>, x: System<V>, l: Label<V>)
    requires Invariant(ops, x)
    ensures Invariant(ops, Step(ops, x, l))
  {
    StepResults(ops, x, l);
    StepSettled(ops, x, l);
    StepCollecting(ops, x, l);
  }

  lemma {:induction false} AfterInvariant<V>(ops: Vector<V>, run: seq<Label<V>>)
    ensures Invariant(ops, After(ops, run))
  {
    if run != [] {
      AfterInvariant(ops, run[..|run| - 1]);
      StepInvariant(ops, After(ops, run[..|run| - 1]), run[|run| - 1]);
    }
  }

  /** In every run each completed bias is well founded, and the bias in use is the last one completed. */
  lemma BiasIsWellFounded<V>(ops: Vector<V>, run: seq<Label<V>>, k: nat)
    requires k < |After(ops, run).results|
    ensures WellFounded(ops, After(ops, run).items, After(ops, run).orders, After(ops, run).results[k])
    ensures After(ops, run).zero.offset == Bias(ops, After(ops, run).results)
  {
    AfterInvariant(ops, run);
  }

  // ---------------------------------------------------------------- what is emitted

  /** The bias in effect when item `k` was processed. */
  function BiasAt<V>(ops: Vector<V>, results: seq<Finished<V>>, k: nat): V {
    if results == [] then ops.zero
    else if results[|results| - 1].at <= k then results[|results| - 1].result.offset
    else BiasAt(ops, results[..|results| - 1], k)
  }

  /** A sample that is emitted is emitted less the bias in effect. */
  ghost predicate EmittedWell<V>(ops: Vector<V>, x: System<V>, k: nat)
    requires k < |x.items|
  {
    x.items[k].outcome.Corrected? ==> x.items[k].outcome.sample == ops.minus(x.items[k].sample, BiasAt(ops, x.results, k))
  }

  ghost predicate Emissions<V>(ops: Vector<V>, x: System<V>) {
    && (forall k :: 0 <= k < |x.items| ==> EmittedWell(ops, x, k))
    && (forall k :: 0 <= k < |x.results| ==> x.results[k].at <= |x.items|)
  }

  lemma BiasAtEnd<V>(ops: Vector<V>, results: seq<Finished<V>>, k: nat)
    requires forall i :: 0 <= i < |results| ==> results[i].at <= k
    ensures BiasAt(ops, results, k) == Bias(ops, results)
  {
  }

  lemma BiasAtBefore<V>(ops: Vector<V>, results: seq<Finished<V>>, f: Finished<V>, k: nat)
    requires k < f.at
    ensures BiasAt(ops, results + [f], k) == BiasAt(ops, results, k)
  {
    assert (results + [f])[..|results|] == results;
  }

  lemma ArrivesEmissions<V>(ops: Vector<V>, x: System<V>, sample: V)
    requires Settled(ops, x) && Emissions(ops, x)
    ensures Emissions(ops, Step(ops, x, Arrives(sample)))
  {
    var y := Step(ops, x, Arrives(sample));
    BiasAtEnd(ops, x.results, |x.items|);
    forall k | 0 <= k < |y.items|
      ensures EmittedWell(ops, y, k)
    {
      if k < |x.items| {
        assert EmittedWell(ops, x, k);
        if OutcomeOf(ops, x.zero, sample).Completed? {
          BiasAtBefore(ops, x.results, Finished(OutcomeOf(ops, x.zero, sample).result, |y.items|), k);
        }
      }
    }
  }

  lemma {:induction false} AfterEmissions<V>(ops: Vector<V>, run: seq<Label<V>>)
    ensures Emissions(ops, After(ops, run))
  {
    if run != [] {
      var x := After(ops, run[..|run| - 1]);
      AfterEmissions(ops, run[..|run| - 1]);
      AfterInvariant(ops, run[..|run| - 1]);
      if run[|run| - 1].Arrives? {
        ArrivesEmissions(ops, x, run[|run| - 1].sample);
      } else {
        assert forall k :: 0 <= k < |x.items| ==> (EmittedWell(ops, x, k) <==> EmittedWell(ops, After(ops, run), k));
      }
    }
  }

  /** In every run a sample that is emitted is emitted less the bias in effect when it was processed. */
  lemma EmittedLessBias<V>(ops: Vector<V>, run: seq<Label<V>>, k: nat)
    requires k < |After(ops, run).items|
    ensures EmittedWell(ops, After(ops, run), k)
  {
    AfterEmissions(ops, run);
  }

  /** Item `k` is one of those a result was computed from. */
  predicate UsedFor<V>(orders: seq<Order>, f: Finished<V>, k: nat) {
    && 1 <= f.result.generation <= |orders|
    && f.at - orders[f.result.generation - 1].count <= k < f.at
  }

  /** In every run no sample is both emitted and used for a bias. */
  lemma NeverBoth<V>(ops: Vector<V>, run: seq<Label<V>>, k: nat, i: nat)
    requires k < |After(ops, run).items| && i < |After(ops, run).results|
    requires UsedFor(After(ops, run).orders, After(ops, run).results[i], k)
    ensures !After(ops, run).items[k].outcome.Corrected?
  {
    AfterInvariant(ops, run);
    var x := After(ops, run);
    UsedIsKept(ops, x.items, x.orders, x.results[i], k);
  }

  lemma {:induction false} UsedIsKept<V>(ops: Vector<V>, items: seq<Item<V>>, orders: seq<Order>, f: Finished<V>, k: nat)
    requires WellFounded(ops, items, orders, f) && k < |items| && UsedFor(orders, f, k)
    ensures !items[k].outcome.Corrected?
  {
    var start := f.at - orders[f.result.generation - 1].count;
    assert items[start..f.at][k - start] == items[k];
  }

  // ---------------------------------------------------------------- a wait that times out

  predicate Stream<V>(gap: seq<Label<V>>) {
    forall k :: 0 <= k < |gap| ==> gap[k].Connected? || gap[k].Arrives?
  }

  lemma {:induction false} AfterAppend<V>(ops: Vector<V>, run: seq<Label<V>>, l: Label<V>)
    ensures After(ops, run + [l]) == Step(ops, After(ops, run), l)
  {
    assert (run + [l])[..|run|] == run;
  }

  /** The collection was completed, and its mean is the bias. */
  ghost predicate Replaced<V>(x: System<V>, generation: nat) {
    && x.zero.active == None && x.results != []
    && x.results[|x.results| - 1].result == ZeroResult(generation, x.zero.offset)
  }

  /**
   * Between the moment a waiting caller times out and the moment it cancels, samples go on arriving.
   * The previous bias is retained exactly if the cancellation still finds the collection active; if not,
   * the collection was completed and its mean has become the bias, although the caller reports failure.
   */
  lemma {:induction false} TimeoutRace<V>(ops: Vector<V>, run: seq<Label<V>>, gap: seq<Label<V>>, generation: nat)
    requires After(ops, run).zero.active == Some(generation) && Stream(gap)
    ensures var s := After(ops, run); var t := After(ops, run + gap);
      && (t.zero.active == Some(generation) <==> |t.results| == |s.results|)
      && (t.zero.active == Some(generation) ==> t.zero.offset == s.zero.offset && t.results == s.results)
      && (t.zero.active != Some(generation) ==> Replaced(t, generation) && |t.results| == |s.results| + 1)
    decreases |gap|
  {
    if gap == [] {
      assert run + gap == run;
    } else {
      var before := gap[..|gap| - 1];
      var l := gap[|gap| - 1];
      TimeoutRace(ops, run, before, generation);
      assert run + gap == run + before + [l];
      AfterAppend(ops, run + before, l);
      assert l.Connected? || l.Arrives?;
    }
  }

  /** One sample is enough: the wait for generation 1 times out, the sample arrives, and the bias has changed. */
  lemma FailedCallChangesBias(sample: Sample)
    requires sample != ZERO
    ensures LookFor(After(WRENCH, [Requested(1)]).zero, 1, true) == GiveUp
    ensures After(WRENCH, [Requested(1)]).zero.offset == ZERO
    ensures After(WRENCH, [Requested(1), Arrives(sample), Cancelled(1)]).zero.offset == sample
  {
    var one: seq<Label<Sample>> := [];
    AfterAppend(WRENCH, one, Requested(1));
    assert one + [Requested(1)] == [Requested(1)];
    AfterAppend(WRENCH, [Requested(1)], Arrives(sample));
    assert [Requested(1)] + [Arrives(sample)] == [Requested(1), Arrives(sample)];
    AfterAppend(WRENCH, [Requested(1), Arrives(sample)], Cancelled(1));
    assert [Requested(1), Arrives(sample)] + [Cancelled(1)] == [Requested(1), Arrives(sample), Cancelled(1)];
    MeanOfOne(sample);
  }

  lemma MeanOfOne(sample: Sample)
    ensures DividedBy(Plus(ZERO, sample), 1) == sample
  {
  }
}
