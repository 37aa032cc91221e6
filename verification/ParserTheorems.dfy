/** What the sample parser guarantees however the stream is cut into chunks. */
module ParserTheorems {
  import opened Messages
  import opened SampleParser
  import opened Wrappers

  // ---------------------------------------------------------------- text

  lemma {:induction false} FindIs(s: string, c: char, from: nat, i: nat)
    requires from <= i < |s| && s[i] == c && c !in s[from..i]
    ensures Find(s, c, from) == i
    decreases i - from
  {
    if from < i {
      assert s[from..i] == [s[from]] + s[from + 1..i];
      FindIs(s, c, from + 1, i);
    }
  }

  lemma FindAppend(s: string, t: string, c: char, from: nat)
    requires from <= |s| && Find(s, c, from) >= 0
    ensures Find(s + t, c, from) == Find(s, c, from)
  {
    var i := Find(s, c, from);
    assert (s + t)[from..i] == s[from..i];
    FindIs(s + t, c, from, i);
  }

  predicate EndsWith(s: string, t: string) {
    |t| <= |s| && s[|s| - |t|..] == t
  }

  lemma EndsWithTrans(s: string, t: string, u: string)
    requires EndsWith(s, t) && EndsWith(t, u)
    ensures EndsWith(s, u)
  {
    assert s[|s| - |u|..] == s[|s| - |t|..][|t| - |u|..];
  }

  lemma EndsWithAppend(s: string, t: string, u: string)
    requires EndsWith(s, t)
    ensures EndsWith(s + u, t + u)
  {
    assert (s + u)[|s + u| - |t + u|..] == s[|s| - |t|..] + u;
  }

  lemma TailOfMore(s: string, t: string, more: string, u: string)
    requires EndsWith(s, t) && EndsWith(t + more, u)
    ensures EndsWith(s + more, u)
  {
    EndsWithAppend(s, t, more);
    EndsWithTrans(s + more, t + more, u);
  }

  lemma Whole(s: string)
    ensures EndsWith(s, s)
  {
    assert s[0..] == s;
  }

  function Join(texts: seq<string>): string {
    if texts == [] then "" else texts[0] + Join(texts[1..])
  }

  // ---------------------------------------------------------------- what is left over

  /** A text without a whole frame, cut at its first parenthesis. */
  predicate Normal(s: string) {
    '(' !in s || (s[0] == '(' && ')' !in s)
  }

  lemma {:induction false} ScanLeftover(parse: Parse, text: string)
    ensures Normal(Scan(parse, text).rest) && EndsWith(text, Scan(parse, text).rest)
    decreases |text|
  {
    var start := Find(text, '(', 0);
    if start < 0 {
      assert text[0..] == text && text[|text| - |text|..] == text;
    } else {
      var rest := text[start..];
      var end := Find(rest, ')', 1);
      if end < 0 {
        assert rest == ['('] + rest[1..];
      } else {
        ScanLeftover(parse, rest[end + 1..]);
        EndsWithTrans(rest, rest[end + 1..], Scan(parse, text).rest);
        EndsWithTrans(text, rest, Scan(parse, text).rest);
      }
    }
  }

  lemma ScanNormal(parse: Parse, text: string)
    requires Normal(text)
    ensures Scan(parse, text) == Scanned([], text)
  {
    if '(' in text {
      assert text[1..] <= text[1..] && ')' !in text[1..];
      FindHere(text, '(');
    }
    ScanNothing(parse, text);
  }

  /** The part of an open text from its last parenthesis. */
  lemma LastPart(text: string, last: nat)
    requires Normal(text) && last < |text| && text[last] == '('
    ensures Normal(text[last..]) && EndsWith(text, text[last..])
  {
    assert text[last..][0] == '(';
    assert forall k :: 0 <= k < |text[last..]| ==> text[last..][k] == text[last + k];
  }

  lemma TrimKeeps(limit: nat, text: string)
    requires Normal(text)
    ensures Normal(Trim(limit, text)) && |Trim(limit, text)| <= limit && EndsWith(text, Trim(limit, text))
  {
    var last := FindLast(text, '(');
    if |text| <= limit {
      Whole(text);
    } else if last >= 0 {
      LastPart(text, last);
    }
  }

  // ---------------------------------------------------------------- chunks

  /** Feeding chunks one after the other. */
  function FeedAll(parse: Parse, limit: nat, buffer: string, chunks: seq<string>): Scanned
    decreases |chunks|
  {
    if chunks == [] then Scanned([], buffer)
    else
      var f := Feed(parse, limit, buffer, chunks[0]);
      Prepend(f.samples, FeedAll(parse, limit, f.rest, chunks[1..]))
  }

  lemma FeedCons(parse: Parse, limit: nat, buffer: string, c: string, r: seq<string>)
    ensures var f := Feed(parse, limit, buffer, c);
      FeedAll(parse, limit, buffer, [c] + r) == Prepend(f.samples, FeedAll(parse, limit, f.rest, r))
  {
    assert ([c] + r)[1..] == r;
  }

  lemma FeedKeeps(parse: Parse, limit: nat, buffer: string, text: string)
    ensures var kept := Feed(parse, limit, buffer, text).rest;
      EndsWith(buffer + text, kept) && |kept| <= limit && Normal(kept)
  {
    var scan := Scan(parse, buffer + text);
    ScanLeftover(parse, buffer + text);
    TrimKeeps(limit, scan.rest);
    EndsWithTrans(buffer + text, scan.rest, Trim(limit, scan.rest));
  }

  /**
   * After every feed the buffer is the end of the stream so far, no longer than the limit, and holds no
   * whole frame.
   */
  lemma {:induction false} BufferIsTail(parse: Parse, limit: nat, buffer: string, chunks: seq<string>)
    requires Normal(buffer) && |buffer| <= limit
    ensures var rest := FeedAll(parse, limit, buffer, chunks).rest;
      EndsWith(buffer + Join(chunks), rest) && |rest| <= limit && Normal(rest)
    decreases |chunks|
  {
    if chunks == [] {
      assert buffer + "" == buffer;
      Whole(buffer);
    } else {
      var kept := Feed(parse, limit, buffer, chunks[0]).rest;
      FeedKeeps(parse, limit, buffer, chunks[0]);
      BufferIsTail(parse, limit, kept, chunks[1..]);
      TailStep(buffer, chunks[0], kept, Join(chunks[1..]), FeedAll(parse, limit, kept, chunks[1..]).rest);
    }
  }

  lemma TailStep(buffer: string, chunk: string, kept: string, more: string, rest: string)
    requires EndsWith(buffer + chunk, kept) && EndsWith(kept + more, rest)
    ensures EndsWith(buffer + (chunk + more), rest)
  {
    TailOfMore(buffer + chunk, kept, more, rest);
    assert buffer + (chunk + more) == buffer + chunk + more;
  }

  /** The scan of a text that goes on is the scan of its beginning and then of what that left over. */
  lemma {:induction false} ScanSplit(parse: Parse, a: string, b: string)
    ensures Scan(parse, a + b) == Prepend(Scan(parse, a).samples, Scan(parse, Scan(parse, a).rest + b))
    decreases |a|
  {
    var start := Find(a, '(', 0);
    if start < 0 {
      PrependNone(Scan(parse, a + b));
    } else {
      FindAppend(a, b, '(', 0);
      var rest := a[start..];
      assert (a + b)[start..] == rest + b;
      var end := Find(rest, ')', 1);
      if end < 0 {
        ScanFromStart(parse, a + b, start);
        PrependNone(Scan(parse, rest + b));
      } else {
        ScanSplit(parse, rest[end + 1..], b);
        SplitFrame(parse, a, b, start, rest, end);
      }
    }
  }

  lemma SlicesOfMore(a: string, b: string, start: nat, rest: string, end: nat)
    requires start <= |a| && rest == a[start..] && 1 <= end < |rest|
    ensures (a + b)[start..] == rest + b
    ensures (rest + b)[1..end] == rest[1..end] && (rest + b)[end + 1..] == rest[end + 1..] + b
  {
  }

  lemma ScanParts(parse: Parse, text: string, start: nat, rest: string, end: nat, payload: string, tail: string)
    requires start < |text| && Find(text, '(', 0) == start && rest == text[start..]
    requires 1 <= end < |rest| && Find(rest, ')', 1) == end && payload == rest[1..end] && tail == rest[end + 1..]
    ensures Scan(parse, text) == Prepend(Collect(parse(payload)), Scan(parse, tail))
  {
    ScanStep(parse, text, start, rest, end);
  }

  lemma StepOfMore(parse: Parse, a: string, b: string, start: nat, rest: string, end: nat)
    requires start < |a| && Find(a, '(', 0) == start == Find(a + b, '(', 0) && rest == a[start..]
    requires 1 <= end < |rest| && Find(rest, ')', 1) == end
    ensures Scan(parse, a + b) == Prepend(Collect(parse(rest[1..end])), Scan(parse, rest[end + 1..] + b))
  {
    FindAppend(rest, b, ')', 1);
    SlicesOfMore(a, b, start, rest, end);
    ScanParts(parse, a + b, start, rest + b, end, rest[1..end], rest[end + 1..] + b);
  }

  lemma PrependChain(found: seq<Sample>, tail: Scanned, more: Scanned, first: Scanned, whole: Scanned)
    requires first == Prepend(found, tail) && whole == Prepend(found, Prepend(tail.samples, more))
    ensures whole == Prepend(first.samples, more)
  {
    PrependBoth(found, tail.samples, more);
  }

  /** The case of a whole frame at the front, given the claim for what follows it. */
  lemma SplitFrame(parse: Parse, a: string, b: string, start: nat, rest: string, end: nat)
    requires start < |a| && Find(a, '(', 0) == start == Find(a + b, '(', 0) && rest == a[start..]
    requires 1 <= end < |rest| && Find(rest, ')', 1) == end
    requires Scan(parse, rest[end + 1..] + b) ==
             Prepend(Scan(parse, rest[end + 1..]).samples, Scan(parse, Scan(parse, rest[end + 1..]).rest + b))
    ensures Scan(parse, a + b) == Prepend(Scan(parse, a).samples, Scan(parse, Scan(parse, a).rest + b))
  {
    var tail := Scan(parse, rest[end + 1..]);
    StepOfMore(parse, a, b, start, rest, end);
    ScanStep(parse, a, start, rest, end);
    PrependChain(Collect(parse(rest[1..end])), tail, Scan(parse, tail.rest + b), Scan(parse, a), Scan(parse, a + b));
  }

  /** Cutting the bytes cuts the text. */
  lemma {:induction false} DecodeSplit(a: seq<uint8>, b: seq<uint8>)
    ensures Decode(a + b) == Decode(a) + Decode(b)
    decreases |b|
  {
    if b == [] {
      assert a + b == a;
    } else {
      var n := |b| - 1;
      assert (a + b)[..|a + b| - 1] == a + b[..n];
      DecodeSplit(a, b[..n]);
    }
  }

  /** No feed had anything to trim. */
  predicate Untrimmed(parse: Parse, limit: nat, buffer: string, chunks: seq<string>)
    decreases |chunks|
  {
    chunks != [] ==>
      var scan := Scan(parse, buffer + chunks[0]);
      |scan.rest| <= limit && Untrimmed(parse, limit, scan.rest, chunks[1..])
  }

  lemma FeedUntrimmed(parse: Parse, limit: nat, buffer: string, chunks: seq<string>)
    requires chunks != [] && |Scan(parse, buffer + chunks[0]).rest| <= limit
    ensures var scan := Scan(parse, buffer + chunks[0]);
      FeedAll(parse, limit, buffer, chunks) == Prepend(scan.samples, FeedAll(parse, limit, scan.rest, chunks[1..]))
  {
  }

  lemma JoinAfter(buffer: string, chunks: seq<string>, all: string)
    requires chunks != [] && all == buffer + chunks[0] + Join(chunks[1..])
    ensures buffer + Join(chunks) == all
  {
  }

  /** As long as nothing is trimmed, how the stream is cut into chunks makes no difference at all. */
  lemma {:induction false} ChunksDoNotMatter(parse: Parse, limit: nat, buffer: string, chunks: seq<string>)
    requires Normal(buffer) && Untrimmed(parse, limit, buffer, chunks)
    ensures FeedAll(parse, limit, buffer, chunks) == Scan(parse, buffer + Join(chunks))
    decreases |chunks|
  {
    if chunks == [] {
      assert buffer + "" == buffer;
      ScanNormal(parse, buffer);
    } else {
      var text := buffer + chunks[0];
      var more := Join(chunks[1..]);
      var scan := Scan(parse, text);
      ScanLeftover(parse, text);
      FeedUntrimmed(parse, limit, buffer, chunks);
      ChunksDoNotMatter(parse, limit, scan.rest, chunks[1..]);
      ScanSplit(parse, text, more);
      JoinAfter(buffer, chunks, text + more);
    }
  }
}
