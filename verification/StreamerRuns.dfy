/** The whole streamer node: the client thread with its parser, one sample at a time, beside the service calls. */
module StreamerRuns {
  import opened ParserTheorems
  import opened SampleParser
  import opened Streamer
  import opened StreamerNode
  import opened Wrappers
  import opened Zeroing

  /**
   * The manager's system, the parser's buffer, the samples of the current chunk not yet handed on, and the
   * chunks of the connections that are over and of the current one.
   */
  datatype Node = Node(x: System<Sample>, buffer: string, pending: seq<Sample>, past: seq<seq<string>>, current: Option<seq<string>>)

  /** What the client thread does: it connects, receives a chunk, or hands one sample on. The rest are service calls. */
  datatype Act = Connect | Receive(text: string) | HandOne | Ask(count: nat) | GiveBack(generation: nat) | Stop

  function Idle(ops: Vector<Sample>): Node {
    Node(Begin(ops), "", [], [], None)
  }

  /** The chunks of all connections so far. */
  function AllChunks(n: Node): seq<seq<string>> {
    if n.current.Some? then n.past + [n.current.value] else n.past
  }

  /** A sample is handed on before the thread receives again; only a connected client receives. */
  function StepNode(ops: Vector<Sample>, parse: Parse, limit: nat, n: Node, a: Act): Node {
    match a
    case Connect =>
      if n.pending != [] then n else Node(Step(ops, n.x, Connected), "", [], AllChunks(n), Some([]))
    case Receive(text) =>
      if n.pending != [] || n.current.None? then n
      else
        var f := Feed(parse, limit, n.buffer, text);
        n.(buffer := f.rest, pending := f.samples, current := Some(n.current.value + [text]))
    case HandOne =>
      if n.pending == [] then n else n.(x := Step(ops, n.x, Arrives(n.pending[0])), pending := n.pending[1..])
    case Ask(count) => n.(x := Step(ops, n.x, Requested(count)))
    case GiveBack(generation) => n.(x := Step(ops, n.x, Cancelled(generation)))
    case Stop => n.(x := Step(ops, n.x, Shutdown))
  }

  function AfterActs(ops: Vector<Sample>, parse: Parse, limit: nat, acts: seq<Act>): Node {
    if acts == [] then Idle(ops) else StepNode(ops, parse, limit, AfterActs(ops, parse, limit, acts[..|acts| - 1]), acts[|acts| - 1])
  }

  // ---------------------------------------------------------------- a run of the manager's system

  /** What an act is for the manager. */
  function LabelsOf(n: Node, a: Act): seq<Label<Sample>> {
    match a
    case Connect => if n.pending != [] then [] else [Connected]
    case Receive(_) => []
    case HandOne => if n.pending == [] then [] else [Arrives(n.pending[0])]
    case Ask(count) => [Requested(count)]
    case GiveBack(generation) => [Cancelled(generation)]
    case Stop => [Shutdown]
  }

  function RunOf(ops: Vector<Sample>, parse: Parse, limit: nat, acts: seq<Act>): seq<Label<Sample>> {
    if acts == [] then []
    else
      var before := acts[..|acts| - 1];
      RunOf(ops, parse, limit, before) + LabelsOf(AfterActs(ops, parse, limit, before), acts[|acts| - 1])
  }

  lemma StepLabels(ops: Vector<Sample>, parse: Parse, limit: nat, n: Node, a: Act)
    ensures var labels := LabelsOf(n, a); var x := StepNode(ops, parse, limit, n, a).x;
      |labels| <= 1 && x == if labels == [] then n.x else Step(ops, n.x, labels[0])
  {
  }

  lemma RunMore(ops: Vector<Sample>, run: seq<Label<Sample>>, labels: seq<Label<Sample>>)
    requires |labels| <= 1
    ensures After(ops, run + labels) == if labels == [] then After(ops, run) else Step(ops, After(ops, run), labels[0])
  {
    if labels == [] {
      assert run + labels == run;
    } else {
      assert labels == [labels[0]];
      AfterAppend(ops, run, labels[0]);
    }
  }

  /** Every run of the node is a run of the manager's system. */
  lemma {:induction false} NodeIsRun(ops: Vector<Sample>, parse: Parse, limit: nat, acts: seq<Act>)
    ensures AfterActs(ops, parse, limit, acts).x == After(ops, RunOf(ops, parse, limit, acts))
  {
    if acts != [] {
      var before := acts[..|acts| - 1];
      var n := AfterActs(ops, parse, limit, before);
      NodeIsRun(ops, parse, limit, before);
      StepLabels(ops, parse, limit, n, acts[|acts| - 1]);
      RunMore(ops, RunOf(ops, parse, limit, before), LabelsOf(n, acts[|acts| - 1]));
    }
  }

  /** What the client does with one connection, all at once, is also such a run. */
  function ArriveAll<V>(samples: seq<V>): seq<Label<V>> {
    if samples == [] then [] else ArriveAll(samples[..|samples| - 1]) + [Arrives(samples[|samples| - 1])]
  }

  lemma Appended<V>(ops: Vector<V>, run: seq<Label<V>>, more: seq<Label<V>>, l: Label<V>)
    ensures After(ops, run + (more + [l])) == Step(ops, After(ops, run + more), l)
  {
    assert run + (more + [l]) == run + more + [l];
    AfterAppend(ops, run + more, l);
  }

  lemma {:induction false} ArrivalsProcess<V>(ops: Vector<V>, run: seq<Label<V>>, samples: seq<V>)
    ensures After(ops, run + ArriveAll(samples)).zero == ProcessAll(ops, After(ops, run).zero, samples)
    decreases |samples|
  {
    if samples == [] {
      assert run + ArriveAll(samples) == run;
    } else {
      var n := |samples| - 1;
      ArrivalsProcess(ops, run, samples[..n]);
      Appended(ops, run, ArriveAll(samples[..n]), Arrives(samples[n]));
    }
  }

  /** The manager as `Client.ReadConnection` leaves it is the manager after `Connected` and all the samples. */
  lemma ConnectionIsRun<V>(ops: Vector<V>, run: seq<Label<V>>, samples: seq<V>)
    ensures After(ops, run + [Connected] + ArriveAll(samples)).zero ==
            ProcessAll(ops, ResetProgress(ops, After(ops, run).zero), samples)
  {
    AfterAppend(ops, run, Connected);
    ArrivalsProcess(ops, run + [Connected], samples);
  }

  /** A client that handles connections undisturbed, as labels. */
  function ClientRun<V>(samples: seq<seq<V>>): seq<Label<V>> {
    if samples == [] then [] else ClientRun(samples[..|samples| - 1]) + ([Connected] + ArriveAll(samples[|samples| - 1]))
  }

  lemma Regrouped<T>(a: seq<T>, b: seq<T>, c: seq<T>, d: seq<T>)
    ensures a + (b + (c + d)) == a + b + c + d
  {
  }

  /** What `Client.Run` does to the manager, starting from any run, is what that run goes on to. */
  lemma {:induction false} ConnectionsAreRun<V>(ops: Vector<V>, run: seq<Label<V>>, samples: seq<seq<V>>)
    ensures Handled(ops, After(ops, run).zero, samples) == After(ops, run + ClientRun(samples)).zero
  {
    if samples == [] {
      assert run + ClientRun(samples) == run;
    } else {
      var before := samples[..|samples| - 1];
      var last := samples[|samples| - 1];
      ConnectionsAreRun(ops, run, before);
      ConnectionIsRun(ops, run + ClientRun(before), last);
      Regrouped(run, ClientRun(before), [Connected], ArriveAll(last));
    }
  }

  // ---------------------------------------------------------------- which connection a sample is from

  /** The samples processed on one connection, in order. */
  function SamplesOn<V>(items: seq<Item<V>>, connection: nat): seq<V> {
    if items == [] then []
    else
      var last := items[|items| - 1];
      SamplesOn(items[..|items| - 1], connection) + (if last.connection == connection then [last.sample] else [])
  }

  /** Everything parsed from a connection has been processed on it in order, but for what is still to be handed on. */
  predicate Accounted<V(==)>(items: seq<Item<V>>, pending: seq<V>, parsed: seq<seq<V>>, c: nat)
    requires 1 <= c <= |parsed|
  {
    parsed[c - 1] == SamplesOn(items, c) + (if c == |parsed| then pending else [])
  }

  ghost predicate AllAccounted<V>(items: seq<Item<V>>, pending: seq<V>, parsed: seq<seq<V>>) {
    && (forall k :: 0 <= k < |items| ==> 1 <= items[k].connection <= |parsed|)
    && (forall c :: 1 <= c <= |parsed| ==> Accounted(items, pending, parsed, c))
  }

  lemma {:induction false} NothingOn<V>(items: seq<Item<V>>, c: nat)
    requires forall k :: 0 <= k < |items| ==> items[k].connection != c
    ensures SamplesOn(items, c) == []
  {
    if items != [] {
      NothingOn(items[..|items| - 1], c);
    }
  }

  lemma ConnectAccounted<V>(items: seq<Item<V>>, parsed: seq<seq<V>>)
    requires AllAccounted(items, [], parsed)
    ensures AllAccounted(items, [], parsed + [[]])
  {
    forall c | 1 <= c <= |parsed| + 1
      ensures Accounted(items, [], parsed + [[]], c)
    {
      if c <= |parsed| {
        assert Accounted(items, [], parsed, c);
      } else {
        NothingOn(items, c);
      }
    }
  }

  lemma ReceiveAccounted<V>(items: seq<Item<V>>, before: seq<seq<V>>, samples: seq<V>, found: seq<V>)
    requires AllAccounted(items, [], before + [samples])
    ensures AllAccounted(items, found, before + [samples + found])
  {
    var parsed, parsed' := before + [samples], before + [samples + found];
    forall c | 1 <= c <= |parsed'|
      ensures Accounted(items, found, parsed', c)
    {
      assert Accounted(items, [], parsed, c);
      assert SamplesOn(items, c) + [] == SamplesOn(items, c);
    }
  }

  lemma HandAccounted<V>(items: seq<Item<V>>, pending: seq<V>, parsed: seq<seq<V>>, item: Item<V>)
    requires AllAccounted(items, pending, parsed) && pending != [] && parsed != []
    requires item.sample == pending[0] && item.connection == |parsed|
    ensures AllAccounted(items + [item], pending[1..], parsed)
  {
    forall c | 1 <= c <= |parsed|
      ensures Accounted(items + [item], pending[1..], parsed, c)
    {
      assert Accounted(items, pending, parsed, c);
      SamplesOnMore(items, item, c);
      MovedOver(SamplesOn(items, c), pending);
    }
  }

  lemma MovedOver<V>(done: seq<V>, pending: seq<V>)
    requires pending != []
    ensures done + [pending[0]] + pending[1..] == done + pending
  {
  }

  lemma SamplesOnMore<V>(items: seq<Item<V>>, item: Item<V>, c: nat)
    ensures SamplesOn(items + [item], c) == SamplesOn(items, c) + (if item.connection == c then [item.sample] else [])
  {
    assert (items + [item])[..|items|] == items;
  }

  // ---------------------------------------------------------------- the chunks of the connections

  /** All the samples a connection's chunks hold. */
  function Parsed(parse: Parse, limit: nat, texts: seq<string>): Scanned {
    FeedAll(parse, limit, "", texts)
  }

  function ParsedAll(parse: Parse, limit: nat, streams: seq<seq<string>>): (parsed: seq<seq<Sample>>)
    ensures |parsed| == |streams|
  {
    if streams == [] then []
    else ParsedAll(parse, limit, streams[..|streams| - 1]) + [Parsed(parse, limit, streams[|streams| - 1]).samples]
  }

  lemma {:induction false} FeedMore(parse: Parse, limit: nat, buffer: string, texts: seq<string>, text: string, f: Scanned)
    requires f == Feed(parse, limit, FeedAll(parse, limit, buffer, texts).rest, text)
    ensures FeedAll(parse, limit, buffer, texts + [text]) == Scanned(FeedAll(parse, limit, buffer, texts).samples + f.samples, f.rest)
    decreases |texts|
  {
    if texts == [] {
      assert texts + [text] == [text] + [];
      FeedCons(parse, limit, buffer, text, []);
      assert f.samples + [] == f.samples == [] + f.samples;
    } else {
      var c, r := texts[0], texts[1..];
      assert texts == [c] + r && texts + [text] == [c] + (r + [text]);
      FeedCons(parse, limit, buffer, c, r);
      FeedCons(parse, limit, buffer, c, r + [text]);
      var first := Feed(parse, limit, buffer, c);
      FeedMore(parse, limit, first.rest, r, text, f);
      Associative(first.samples, FeedAll(parse, limit, first.rest, r).samples, f.samples);
    }
  }

  lemma {:induction false} ParsedMore(parse: Parse, limit: nat, streams: seq<seq<string>>, texts: seq<string>)
    ensures ParsedAll(parse, limit, streams + [texts]) == ParsedAll(parse, limit, streams) + [Parsed(parse, limit, texts).samples]
  {
    assert (streams + [texts])[..|streams|] == streams;
  }

  /** The samples parsed from each connection. */
  function ParsedBy(parse: Parse, limit: nat, n: Node): seq<seq<Sample>> {
    var past := ParsedAll(parse, limit, n.past);
    if n.current.Some? then past + [Parsed(parse, limit, n.current.value).samples] else past
  }

  ghost predicate Tracked(parse: Parse, limit: nat, n: Node) {
    && n.x.connection == |ParsedBy(parse, limit, n)|
    && AllAccounted(n.x.items, n.pending, ParsedBy(parse, limit, n))
    && (n.current.Some? ==> n.buffer == Parsed(parse, limit, n.current.value).rest)
    && (n.current.None? ==> n.past == [] && n.pending == [])
  }

  lemma AllParsed(parse: Parse, limit: nat, n: Node)
    ensures ParsedAll(parse, limit, AllChunks(n)) == ParsedBy(parse, limit, n)
  {
    if n.current.Some? {
      ParsedMore(parse, limit, n.past, n.current.value);
    }
  }

  lemma ConnectTracked(ops: Vector<Sample>, parse: Parse, limit: nat, n: Node, m: Node)
    requires Tracked(parse, limit, n) && n.pending == [] && m == Node(Step(ops, n.x, Connected), "", [], AllChunks(n), Some([]))
    ensures Tracked(parse, limit, m)
  {
    AllParsed(parse, limit, n);
    ConnectAccounted(n.x.items, ParsedBy(parse, limit, n));
    assert ParsedBy(parse, limit, m) == ParsedBy(parse, limit, n) + [[]];
  }

  lemma ReceiveTracked(parse: Parse, limit: nat, n: Node, m: Node, text: string, f: Scanned)
    requires Tracked(parse, limit, n) && n.pending == [] && n.current.Some? && f == Feed(parse, limit, n.buffer, text)
    requires m == n.(buffer := f.rest, pending := f.samples, current := Some(n.current.value + [text]))
    ensures Tracked(parse, limit, m)
  {
    var texts := n.current.value;
    FeedMore(parse, limit, "", texts, text, f);
    ReceiveAccounted(n.x.items, ParsedAll(parse, limit, n.past), Parsed(parse, limit, texts).samples, f.samples);
  }

  lemma HandTracked(ops: Vector<Sample>, parse: Parse, limit: nat, n: Node)
    requires Tracked(parse, limit, n) && n.pending != []
    ensures Tracked(parse, limit, n.(x := Step(ops, n.x, Arrives(n.pending[0])), pending := n.pending[1..]))
  {
    var item := ArrivesAdds(ops, n.x, n.pending[0]);
    HandAccounted(n.x.items, n.pending, ParsedBy(parse, limit, n), item);
  }

  lemma ArrivesAdds<V>(ops: Vector<V>, x: System<V>, sample: V) returns (item: Item<V>)
    ensures var y := Step(ops, x, Arrives(sample)); y.items == x.items + [item] && y.connection == x.connection
    ensures item.sample == sample && item.connection == x.connection
  {
    item := Item(sample, x.connection, OutcomeOf(ops, x.zero, sample));
  }

  lemma CallTracked(ops: Vector<Sample>, parse: Parse, limit: nat, n: Node, l: Label<Sample>)
    requires Tracked(parse, limit, n) && !l.Connected? && !l.Arrives?
    ensures Tracked(parse, limit, n.(x := Step(ops, n.x, l)))
  {
    CallsAddNothing(ops, n.x, l);
  }

  lemma CallsAddNothing<V>(ops: Vector<V>, x: System<V>, l: Label<V>)
    requires !l.Connected? && !l.Arrives?
    ensures Step(ops, x, l).items == x.items && Step(ops, x, l).connection == x.connection
  {
  }

  lemma StepTracked(ops: Vector<Sample>, parse: Parse, limit: nat, n: Node, a: Act)
    requires Tracked(parse, limit, n)
    ensures Tracked(parse, limit, StepNode(ops, parse, limit, n, a))
  {
    var m := StepNode(ops, parse, limit, n, a);
    match a
    case Connect =>
      if n.pending == [] { ConnectTracked(ops, parse, limit, n, m); }
    case Receive(text) =>
      if n.pending == [] && n.current.Some? { ReceiveTracked(parse, limit, n, m, text, Feed(parse, limit, n.buffer, text)); }
    case HandOne =>
      if n.pending != [] { HandTracked(ops, parse, limit, n); }
    case Ask(count) => CallTracked(ops, parse, limit, n, Requested(count));
    case GiveBack(generation) => CallTracked(ops, parse, limit, n, Cancelled(generation));
    case Stop => CallTracked(ops, parse, limit, n, Shutdown);
  }

  lemma {:induction false} AfterTracked(ops: Vector<Sample>, parse: Parse, limit: nat, acts: seq<Act>)
    ensures Tracked(parse, limit, AfterActs(ops, parse, limit, acts))
  {
    if acts != [] {
      AfterTracked(ops, parse, limit, acts[..|acts| - 1]);
      StepTracked(ops, parse, limit, AfterActs(ops, parse, limit, acts[..|acts| - 1]), acts[|acts| - 1]);
    }
  }

  // ---------------------------------------------------------------- the samples of a bias

  lemma {:induction false} SamplesOnAppend<V>(a: seq<Item<V>>, b: seq<Item<V>>, c: nat)
    ensures SamplesOn(a + b, c) == SamplesOn(a, c) + SamplesOn(b, c)
    decreases |b|
  {
    if b == [] {
      assert a + b == a;
    } else {
      assert (a + b)[..|a + b| - 1] == a + b[..|b| - 1];
      SamplesOnAppend(a, b[..|b| - 1], c);
    }
  }

  lemma {:induction false} SamplesOfOne<V>(items: seq<Item<V>>, c: nat)
    requires OneConnection(items, c)
    ensures SamplesOn(items, c) == SamplesOf(items)
  {
    if items != [] {
      var n := |items| - 1;
      SamplesOfOne(items[..n], c);
      assert SamplesOf(items) == SamplesOf(items[..n]) + [items[n].sample];
    }
  }

  /** Consecutive items of one connection are consecutive samples of what it sent. */
  lemma ConsecutiveSamples<V>(items: seq<Item<V>>, i: nat, j: nat, c: nat) returns (start: nat)
    requires i <= j <= |items| && OneConnection(items[i..j], c)
    ensures start + (j - i) <= |SamplesOn(items, c)| && SamplesOn(items, c)[start..start + (j - i)] == SamplesOf(items[i..j])
  {
    start := |SamplesOn(items[..i], c)|;
    assert items == items[..i] + items[i..j] + items[j..];
    SamplesOnAppend(items[..i] + items[i..j], items[j..], c);
    SamplesOnAppend(items[..i], items[i..j], c);
    SamplesOfOne(items[i..j], c);
  }

  /** Consecutive items of one connection are consecutive samples parsed from it. */
  lemma ConsecutiveParsed<V>(items: seq<Item<V>>, pending: seq<V>, parsed: seq<seq<V>>, i: nat, j: nat, c: nat) returns (from: nat)
    requires AllAccounted(items, pending, parsed) && i <= j <= |items| && OneConnection(items[i..j], c) && 1 <= c <= |parsed|
    ensures from + (j - i) <= |parsed[c - 1]| && parsed[c - 1][from..from + (j - i)] == SamplesOf(items[i..j])
  {
    from := ConsecutiveSamples(items, i, j, c);
    assert Accounted(items, pending, parsed, c);
    assert parsed[c - 1][..|SamplesOn(items, c)|] == SamplesOn(items, c);
  }

  /** The bias is the mean of the samples `from` to `from + count` of those parsed from this connection. */
  ghost predicate MeanOfParsed<V>(ops: Vector<V>, orders: seq<Order>, parsed: seq<seq<V>>, f: Finished<V>, connection: nat, from: nat) {
    && 1 <= f.result.generation <= |orders| && 1 <= connection <= |parsed|
    && var count := orders[f.result.generation - 1].count;
    && 0 < count && from + count <= |parsed[connection - 1]|
    && f.result.offset == ops.divide(Sum(ops, parsed[connection - 1][from..from + count]), count)
  }

  lemma WellFoundedIsParsed<V>(ops: Vector<V>, items: seq<Item<V>>, pending: seq<V>, orders: seq<Order>, parsed: seq<seq<V>>, f: Finished<V>)
    returns (connection: nat, from: nat)
    requires WellFounded(ops, items, orders, f) && AllAccounted(items, pending, parsed)
    ensures MeanOfParsed(ops, orders, parsed, f, connection, from)
  {
    var start := f.at - orders[f.result.generation - 1].count;
    connection := items[start].connection;
    assert items[start..f.at][0] == items[start];
    from := ConsecutiveParsed(items, pending, parsed, start, f.at, connection);
  }

  /**
   * In every run of the node each completed bias is the mean of exactly the requested number of consecutive
   * samples among those that the parser makes of the chunks of one TCP connection.
   */
  lemma BiasFromOneConnection(ops: Vector<Sample>, parse: Parse, limit: nat, acts: seq<Act>, k: nat) returns (connection: nat, from: nat)
    requires k < |AfterActs(ops, parse, limit, acts).x.results|
    ensures var n := AfterActs(ops, parse, limit, acts);
      MeanOfParsed(ops, n.x.orders, ParsedBy(parse, limit, n), n.x.results[k], connection, from)
  {
    var n := AfterActs(ops, parse, limit, acts);
    NodeIsRun(ops, parse, limit, acts);
    BiasIsWellFounded(ops, RunOf(ops, parse, limit, acts), k);
    AfterTracked(ops, parse, limit, acts);
    connection, from := WellFoundedIsParsed(ops, n.x.items, n.pending, n.x.orders, ParsedBy(parse, limit, n), n.x.results[k]);
  }
}
