/** What zeroing does to the six numbers of a sample, from the request to the first sample emitted after it. */
module ZeroingOutcomes {
  import opened SampleParser
  import opened StreamerNode
  import opened Wrappers
  import opened Zeroing

  /** The six components in their order. */
  function Component(s: Sample, i: nat): real
    requires i < 6
  {
    [s.fx, s.fy, s.fz, s.tx, s.ty, s.tz][i]
  }

  /** The sum of one component. */
  function Total(samples: seq<Sample>, i: nat): real
    requires i < 6
  {
    if samples == [] then 0.0 else Total(samples[..|samples| - 1], i) + Component(samples[|samples| - 1], i)
  }

  lemma {:induction false} SumIsTotal(samples: seq<Sample>, i: nat)
    requires i < 6
    ensures Component(Sum(WRENCH, samples), i) == Total(samples, i)
  {
    if samples != [] {
      SumIsTotal(samples[..|samples| - 1], i);
      assert Sum(WRENCH, samples) == Plus(Sum(WRENCH, samples[..|samples| - 1]), samples[|samples| - 1]);
    }
  }

  lemma MeanComponent(sums: Sample, n: nat, i: nat)
    requires i < 6 && n > 0
    ensures Component(DividedBy(sums, n), i) == Component(sums, i) / n as real
  {
  }

  // ---------------------------------------------------------------- a collection

  /** Part of the requested samples have come: nothing has changed but the sums. */
  lemma {:induction false} Collects<V>(ops: Vector<V>, s: State<V>, n: nat, samples: seq<V>)
    requires |samples| < n
    ensures ProcessAll(ops, Request(ops, s, n), samples) == Request(ops, s, n).(count := |samples|, sums := Sum(ops, samples))
    ensures Emitted(ops, Request(ops, s, n), samples) == []
  {
    if samples != [] {
      Collects(ops, s, n, samples[..|samples| - 1]);
    }
  }

  /** All of them have come: the bias is their mean, and it is the result of this request. */
  lemma Completes<V>(ops: Vector<V>, s: State<V>, samples: seq<V>)
    requires samples != []
    ensures var n := |samples|; var t := ProcessAll(ops, Request(ops, s, n), samples);
      && t.offset == ops.divide(Sum(ops, samples), n)
      && t.completed == Some(ZeroResult(s.generation + 1, t.offset)) && t.active == None
      && t.generation == s.generation + 1 && t.closed == s.closed
    ensures Emitted(ops, Request(ops, s, |samples|), samples) == []
  {
    Collects(ops, s, |samples|, samples[..|samples| - 1]);
  }

  /**
   * Zeroing from any state: with as many samples as were requested the bias is their mean in each of the six
   * components, none of them was emitted, and a sample after them is emitted less that mean, component by component.
   */
  lemma BiasIsMean(s: State<Sample>, samples: seq<Sample>, next: Sample, i: nat)
    requires samples != [] && i < 6
    ensures var zeroing := Request(WRENCH, s, |samples|);
      var t := ProcessAll(WRENCH, zeroing, samples);
      && Component(t.offset, i) == Total(samples, i) / |samples| as real
      && |Emitted(WRENCH, zeroing, samples + [next])| == 1
      && Component(Emitted(WRENCH, zeroing, samples + [next])[0], i) == Component(next, i) - Total(samples, i) / |samples| as real
  {
    hide ProcessAll, Request, Emitted, Sum, Total, Component;
    var zeroing := Request(WRENCH, s, |samples|);
    var t := ProcessAll(WRENCH, zeroing, samples);
    Completes(WRENCH, s, samples);
    SumIsTotal(samples, i);
    MeanComponent(Sum(WRENCH, samples), |samples|, i);
    EmittedAppend(WRENCH, zeroing, samples, [next]);
    EmitsOne(t, next);
    Difference(next, t.offset, i);
  }

  lemma Difference(a: Sample, b: Sample, i: nat)
    requires i < 6
    ensures Component(Minus(a, b), i) == Component(a, i) - Component(b, i)
  {
  }

  lemma EmitsOne(t: State<Sample>, next: Sample)
    requires t.active == None
    ensures Emitted(WRENCH, t, [next]) == [Minus(next, t.offset)]
  {
    assert [next][..0] == [];
  }

  // ---------------------------------------------------------------- the caller that waits for it

  /**
   * The caller of a request on a manager that is not closed: it sleeps while samples are missing and the deadline has
   * not come, gives up when it comes first, and returns its own result once they are there, deadline or not.
   */
  lemma CallerIsAnswered<V>(ops: Vector<V>, s: State<V>, samples: seq<V>, some: seq<V>, late: bool)
    requires !s.closed && some < samples
    requires s.completed.Some? ==> s.completed.value.generation <= s.generation
    ensures var zeroing := Request(ops, s, |samples|); var g := s.generation + 1;
      && LookFor(ProcessAll(ops, zeroing, some), g, late) == (if late then GiveUp else Sleep)
      && LookFor(ProcessAll(ops, zeroing, samples), g, late) == Return(ZeroResult(g, ops.divide(Sum(ops, samples), |samples|)))
  {
    Collects(ops, s, |samples|, some);
    Completes(ops, s, samples);
  }

  /** A caller whose request was superseded or cancelled, or whose manager was closed, gives up at its next look. */
  lemma CallerGivesUp<V>(ops: Vector<V>, s: State<V>, g: nat, n: nat, late: bool)
    requires s.completed.Some? ==> s.completed.value.generation != g
    requires g <= s.generation
    ensures LookFor(Request(ops, s, n), g, late) == GiveUp
    ensures LookFor(Cancel(s, g), g, late) == GiveUp
    ensures LookFor(Close(s), g, late) == GiveUp
  {
  }

  /** Cancelling the request of somebody else changes nothing. */
  lemma OthersGoOn<V>(s: State<V>, g: nat)
    requires s.active != Some(g)
    ensures Cancel(s, g) == s
  {
  }

  /** A reconnect in between takes the collection back to its beginning. */
  lemma ReconnectStartsOver<V>(ops: Vector<V>, s: State<V>, n: nat, some: seq<V>)
    requires |some| < n
    ensures ResetProgress(ops, ProcessAll(ops, Request(ops, s, n), some)) == Request(ops, s, n)
  {
    Collects(ops, s, n, some);
  }
}
