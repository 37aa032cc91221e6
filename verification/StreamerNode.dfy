/** The client thread and the publisher of the streamer node. */
module StreamerNode {
  import opened Messages
  import opened Rounding
  import opened SampleParser
  import opened Wrappers
  import opened Zeroing
  import opened ParserTheorems

  // ---------------------------------------------------------------- the client

  function Texts(chunks: seq<seq<uint8>>): seq<string> {
    seq(|chunks|, k requires 0 <= k < |chunks| => Decode(chunks[k]))
  }

  /** The manager after a number of samples. */
  function ProcessAll<V>(ops: Vector<V>, s: State<V>, samples: seq<V>): State<V> {
    if samples == [] then s else Process(ops, ProcessAll(ops, s, samples[..|samples| - 1]), samples[|samples| - 1])
  }

  lemma {:induction false} ProcessAllAppend<V>(ops: Vector<V>, s: State<V>, a: seq<V>, b: seq<V>)
    ensures ProcessAll(ops, s, a + b) == ProcessAll(ops, ProcessAll(ops, s, a), b)
    decreases |b|
  {
    if b == [] {
      assert a + b == a;
    } else {
      var n := |b| - 1;
      assert (a + b)[..|a + b| - 1] == a + b[..n];
      ProcessAllAppend(ops, s, a, b[..n]);
    }
  }

  /** The samples that were emitted, corrected, in the order in which they came. */
  function Emitted<V>(ops: Vector<V>, s: State<V>, samples: seq<V>): seq<V> {
    if samples == [] then []
    else
      var outcome := OutcomeOf(ops, ProcessAll(ops, s, samples[..|samples| - 1]), samples[|samples| - 1]);
      Emitted(ops, s, samples[..|samples| - 1]) + (if outcome.Corrected? then [outcome.sample] else [])
  }

  /** The manager after some connections, each with its chunks. */
  function Handled<V>(ops: Vector<V>, s: State<V>, samples: seq<seq<V>>): State<V> {
    if samples == [] then s
    else ProcessAll(ops, ResetProgress(ops, Handled(ops, s, samples[..|samples| - 1])), samples[|samples| - 1])
  }

  lemma HandledMore<V>(ops: Vector<V>, s: State<V>, samples: seq<seq<V>>, k: nat)
    requires k < |samples|
    ensures Handled(ops, s, samples[..k + 1]) == ProcessAll(ops, ResetProgress(ops, Handled(ops, s, samples[..k])), samples[k])
  {
    assert samples[..k + 1][..k] == samples[..k];
  }

  /** The samples of some connections, each parsed from the beginning. */
  function SamplesOfAll(parse: Parse, limit: nat, connections: seq<seq<seq<uint8>>>): (samples: seq<seq<Sample>>)
    ensures |samples| == |connections|
  {
    seq(|connections|, k requires 0 <= k < |connections| => FeedAll(parse, limit, "", Texts(connections[k])).samples)
  }

  class Client {
    const parser: Parser
    const manager: Manager
    var emitted: seq<Sample>

    constructor (parser: Parser, manager: Manager)
      ensures this.parser == parser && this.manager == manager && emitted == []
    {
      this.parser := parser;
      this.manager := manager;
      emitted := [];
    }

    /** The sample callback, for all samples of one chunk. */
    method HandOn(samples: seq<Sample>)
      modifies manager, this`emitted
      ensures manager.Contents() == ProcessAll(WRENCH, old(manager.Contents()), samples)
      ensures emitted == old(emitted) + Emitted(WRENCH, old(manager.Contents()), samples)
    {
      ghost var s := manager.Contents();
      var k := 0;
      while k < |samples|
        invariant 0 <= k <= |samples|
        invariant manager.Contents() == ProcessAll(WRENCH, s, samples[..k])
        invariant emitted == old(emitted) + Emitted(WRENCH, s, samples[..k])
      {
        var outcome := manager.ProcessSample(samples[k]);
        if outcome.Corrected? {
          emitted := emitted + [outcome.sample];
        }
        assert samples[..k + 1][..k] == samples[..k];
        k := k + 1;
      }
      assert samples[..k] == samples;
    }

    /** One chunk: its samples go to the manager in order. */
    method HandleChunk(chunk: seq<uint8>) returns (ghost found: seq<Sample>)
      modifies parser, manager, this`emitted
      ensures Scanned(found, parser.buffer) == Feed(PayloadParser(parser.number), parser.limit, old(parser.buffer), Decode(chunk))
      ensures manager.Contents() == ProcessAll(WRENCH, old(manager.Contents()), found)
      ensures emitted == old(emitted) + Emitted(WRENCH, old(manager.Contents()), found)
    {
      var samples := parser.FeedChunk(Bytes(chunk));
      HandOn(samples);
      found := samples;
    }

    /**
     * One connection: the parser is reset and an active collection restarted before anything is read,
     * and then every sample of every chunk goes to the manager in order.
     */
    method ReadConnection(chunks: seq<seq<uint8>>) returns (ghost samples: seq<Sample>)
      modifies parser, manager, this`emitted
      ensures Scanned(samples, parser.buffer) == FeedAll(PayloadParser(parser.number), parser.limit, "", Texts(chunks))
      ensures manager.Contents() == ProcessAll(WRENCH, ResetProgress(WRENCH, old(manager.Contents())), samples)
      ensures emitted == old(emitted) + Emitted(WRENCH, ResetProgress(WRENCH, old(manager.Contents())), samples)
    {
      ghost var parse := PayloadParser(parser.number);
      ghost var limit := parser.limit;
      parser.Reset();
      manager.Restart();
      ghost var s := manager.Contents();
      samples := [];
      var k := 0;
      ghost var out := emitted;
      FlowBegins(parse, limit, Texts(chunks));
      while k < |chunks|
        invariant 0 <= k <= |chunks|
        invariant Progress(WRENCH, parse, limit, s, out, Texts(chunks), k, samples, parser.buffer, manager.Contents(), emitted)
      {
        ghost var buffer, zero, before := parser.buffer, manager.Contents(), emitted;
        ghost var found := HandleChunk(chunks[k]);
        GoesOn(WRENCH, parse, limit, s, out, Texts(chunks), k, samples, buffer, zero, before, found, parser.buffer);
        samples := samples + found;
        k := k + 1;
      }
      FlowEnds(parse, limit, Texts(chunks), samples, parser.buffer);
    }

    /** `run`: one connection after the other, each until it fails. */
    method Run(connections: seq<seq<seq<uint8>>>)
      modifies parser, manager, this`emitted
      ensures manager.Contents() ==
              Handled(WRENCH, old(manager.Contents()), SamplesOfAll(PayloadParser(parser.number), parser.limit, connections))
    {
      ghost var all := SamplesOfAll(PayloadParser(parser.number), parser.limit, connections);
      ghost var s := manager.Contents();
      var k := 0;
      while k < |connections|
        invariant 0 <= k <= |connections|
        invariant manager.Contents() == Handled(WRENCH, s, all[..k])
      {
        ghost var samples := ReadConnection(connections[k]);
        assert samples == all[k];
        HandledMore(WRENCH, s, all, k);
        k := k + 1;
      }
      assert all[..k] == all;
    }
  }

  /** After `k` chunks the parser, the manager and the output agree on the samples that have come out. */
  ghost predicate Progress(ops: Vector<Sample>, parse: Parse, limit: nat, s: State<Sample>, out: seq<Sample>, texts: seq<string>, k: nat,
                     samples: seq<Sample>, buffer: string, zero: State<Sample>, emitted: seq<Sample>)
    requires k <= |texts|
  {
    && Flow(parse, limit, texts, k, samples, buffer)
    && zero == ProcessAll(ops, s, samples)
    && emitted == out + Emitted(ops, s, samples)
  }

  lemma GoesOn(ops: Vector<Sample>, parse: Parse, limit: nat, s: State<Sample>, out: seq<Sample>, texts: seq<string>, k: nat, samples: seq<Sample>,
               buffer: string, zero: State<Sample>, emitted: seq<Sample>, found: seq<Sample>, rest: string)
    requires k < |texts| && Progress(ops, parse, limit, s, out, texts, k, samples, buffer, zero, emitted)
    requires Scanned(found, rest) == Feed(parse, limit, buffer, texts[k])
    ensures Progress(ops, parse, limit, s, out, texts, k + 1, samples + found, rest, ProcessAll(ops, zero, found), emitted + Emitted(ops, zero, found))
  {
    FlowGoesOn(parse, limit, texts, k, samples, buffer, found, rest);
    OutputGoesOn(ops, s, out, samples, zero, emitted, found);
  }

  lemma OutputGoesOn<V>(ops: Vector<V>, s: State<V>, out: seq<V>, samples: seq<V>, zero: State<V>, emitted: seq<V>, found: seq<V>)
    requires zero == ProcessAll(ops, s, samples) && emitted == out + Emitted(ops, s, samples)
    ensures ProcessAll(ops, zero, found) == ProcessAll(ops, s, samples + found)
    ensures emitted + Emitted(ops, zero, found) == out + Emitted(ops, s, samples + found)
  {
    ProcessAllAppend(ops, s, samples, found);
    EmittedAppend(ops, s, samples, found);
    Associative(out, Emitted(ops, s, samples), Emitted(ops, zero, found));
  }

  lemma Associative<V>(a: seq<V>, b: seq<V>, c: seq<V>)
    ensures a + b + c == a + (b + c)
  {
  }

  /** After `k` chunks these samples have come out, and the buffer is what is left. */
  predicate Flow(parse: Parse, limit: nat, texts: seq<string>, k: nat, samples: seq<Sample>, buffer: string)
    requires k <= |texts|
  {
    FeedAll(parse, limit, "", texts) == Prepend(samples, FeedAll(parse, limit, buffer, texts[k..]))
  }

  lemma FlowBegins(parse: Parse, limit: nat, texts: seq<string>)
    ensures Flow(parse, limit, texts, 0, [], "")
  {
    assert texts[0..] == texts;
    PrependNone(FeedAll(parse, limit, "", texts));
  }

  lemma FlowGoesOn(parse: Parse, limit: nat, texts: seq<string>, k: nat, samples: seq<Sample>, buffer: string,
                   found: seq<Sample>, rest: string)
    requires k < |texts| && Flow(parse, limit, texts, k, samples, buffer)
    requires Scanned(found, rest) == Feed(parse, limit, buffer, texts[k])
    ensures Flow(parse, limit, texts, k + 1, samples + found, rest)
  {
    FeedStep(parse, limit, buffer, texts, k, samples);
  }

  lemma FlowEnds(parse: Parse, limit: nat, texts: seq<string>, samples: seq<Sample>, buffer: string)
    requires Flow(parse, limit, texts, |texts|, samples, buffer)
    ensures FeedAll(parse, limit, "", texts) == Scanned(samples, buffer)
  {
    assert texts[|texts|..] == [] && samples + [] == samples;
  }

  lemma {:induction false} EmittedAppend<V>(ops: Vector<V>, s: State<V>, a: seq<V>, b: seq<V>)
    ensures Emitted(ops, s, a + b) == Emitted(ops, s, a) + Emitted(ops, ProcessAll(ops, s, a), b)
    decreases |b|
  {
    if b == [] {
      assert a + b == a;
    } else {
      var n := |b| - 1;
      assert (a + b)[..|a + b| - 1] == a + b[..n];
      EmittedAppend(ops, s, a, b[..n]);
      ProcessAllAppend(ops, s, a, b[..n]);
    }
  }

  /** One more chunk in the feeding of all of them. */
  lemma FeedStep(parse: Parse, limit: nat, buffer: string, texts: seq<string>, k: nat, samples: seq<Sample>)
    requires k < |texts|
    ensures var f := Feed(parse, limit, buffer, texts[k]);
      Prepend(samples, FeedAll(parse, limit, buffer, texts[k..])) ==
      Prepend(samples + f.samples, FeedAll(parse, limit, f.rest, texts[k + 1..]))
  {
    var f := Feed(parse, limit, buffer, texts[k]);
    assert texts[k..][0] == texts[k] && texts[k..][1..] == texts[k + 1..];
    PrependBoth(samples, f.samples, FeedAll(parse, limit, f.rest, texts[k + 1..]));
  }

  // ---------------------------------------------------------------- the publisher

  function Max(x: real, y: real): real {
    if x < y then y else x
  }

  class Publisher {
    const rate: real
    var next: real

    constructor (rate: real)
      requires rate >= 0.0
      ensures this.rate == rate && next == 0.0
    {
      this.rate := rate;
      next := 0.0;
    }

    /** `_publish_due` at time `now`. */
    method PublishDue(now: real) returns (due: bool)
      modifies this`next
      ensures rate == 0.0 ==> due && next == old(next)
      ensures rate != 0.0 ==> due == (now >= old(next)) && next == NextAfter(Over(1.0, rate), old(next), now)
    {
      if rate == 0.0 {
        return true;
      }
      if now < next {
        return false;
      }
      var period := Over(1.0, rate);
      next := Max(next + period, now);
      return true;
    }
  }

  /** The earliest time of the next message, after a call at `now`. */
  function NextAfter(period: real, next: real, now: real): real {
    if now < next then next else Max(next + period, now)
  }

  /** The times of the calls that publish. */
  function Published(period: real, next: real, calls: seq<real>): seq<real>
    decreases |calls|
  {
    if calls == [] then []
    else
      (if calls[0] >= next then [calls[0]] else []) + Published(period, NextAfter(period, next, calls[0]), calls[1..])
  }

  lemma {:induction false} NotBefore(period: real, next: real, calls: seq<real>, k: nat)
    requires period > 0.0 && k < |Published(period, next, calls)|
    ensures Published(period, next, calls)[k] >= next + Times(k as real, period)
    decreases |calls|
  {
    var rest := NextAfter(period, next, calls[0]);
    if calls[0] >= next {
      if k > 0 {
        NotBefore(period, rest, calls[1..], k - 1);
        TimesLess(k, period);
      } else {
        TimesZero(period);
      }
    } else {
      NotBefore(period, rest, calls[1..], k);
    }
  }

  lemma TimesLess(k: nat, period: real)
    requires k > 0
    ensures Times((k - 1) as real, period) + period == Times(k as real, period)
  {
  }

  lemma TimesZero(period: real)
    ensures Times(0.0, period) == 0.0
  {
  }

  /** However the calls come, `k` messages further on at least `k - 1` periods have passed. */
  lemma {:induction false} RateIsBounded(period: real, next: real, calls: seq<real>, i: nat, k: nat)
    requires period > 0.0 && k > 0 && i + k < |Published(period, next, calls)|
    ensures var p := Published(period, next, calls); p[i + k] - p[i] >= Times((k - 1) as real, period)
    decreases |calls|
  {
    var rest := NextAfter(period, next, calls[0]);
    if calls[0] < next {
      RateIsBounded(period, rest, calls[1..], i, k);
    } else if i > 0 {
      RateIsBounded(period, rest, calls[1..], i - 1, k);
    } else {
      NotBefore(period, rest, calls[1..], k - 1);
    }
  }

  lemma CallsTail(calls: seq<real>, k: nat)
    requires 0 < k < |calls|
    ensures calls[..k][1..] == calls[1..][..k - 1] && calls[..k + 1][1..] == calls[1..][..k]
    ensures calls[..k][0] == calls[0] == calls[..k + 1][0]
  {
  }

  /** A call that comes at least one period after the last message, or at the beginning not before the first time, publishes. */
  lemma {:induction false} NotStarved(period: real, next: real, calls: seq<real>, k: nat)
    requires period > 0.0 && k < |calls|
    requires var before := Published(period, next, calls[..k]);
      calls[k] >= if before == [] then next else before[|before| - 1] + period
    ensures Published(period, next, calls[..k + 1]) == Published(period, next, calls[..k]) + [calls[k]]
    decreases |calls|
  {
    if k == 0 {
      assert calls[..1] == [calls[0]] && calls[..1][1..] == [];
    } else {
      CallsTail(calls, k);
      NotStarved(period, NextAfter(period, next, calls[0]), calls[1..], k - 1);
    }
  }
}
