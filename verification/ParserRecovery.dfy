/** The sample parser finds its way back into a good stream after any garbage. */
module ParserRecovery {
  import opened ParserTheorems
  import opened SampleParser
  import opened Wrappers

  /** A frame as the sensor sends it: parentheses only at its ends, six good numbers, not longer than the limit. */
  predicate WellFormed(parse: Parse, limit: nat, w: string) {
    && 2 <= |w| <= limit
    && w[0] == '(' && w[|w| - 1] == ')'
    && '(' !in w[1..] && ')' !in w[..|w| - 1]
    && parse(w[1..|w| - 1]).Some?
  }

  predicate AllWellFormed(parse: Parse, limit: nat, ws: seq<string>) {
    forall k :: 0 <= k < |ws| ==> WellFormed(parse, limit, ws[k])
  }

  function Value(parse: Parse, limit: nat, w: string): Sample
    requires WellFormed(parse, limit, w)
  {
    parse(w[1..|w| - 1]).value
  }

  /** The samples of well-formed frames, in order. */
  function Values(parse: Parse, limit: nat, ws: seq<string>): seq<Sample>
    requires AllWellFormed(parse, limit, ws)
  {
    if ws == [] then [] else [Value(parse, limit, ws[0])] + Values(parse, limit, ws[1..])
  }

  // ---------------------------------------------------------------- one scan

  /** An open frame that is closed is one payload, whatever is in it. */
  lemma CloseFrame(parse: Parse, open: string, more: string, text: string, payload: string)
    requires open != "" && open[0] == '(' && ')' !in open
    requires text == open + [')'] + more && payload == open[1..]
    ensures Scan(parse, text) == Prepend(Collect(parse(payload)), Scan(parse, more))
  {
    var end := |open|;
    FindHere(text, '(');
    assert text[1..end] == payload && text[end + 1..] == more;
    FindIs(text, ')', 1, end);
    ScanParts(parse, text, 0, text, end, payload, more);
  }

  lemma SkipGarbage(parse: Parse, garbage: string, text: string)
    requires '(' !in garbage && text != "" && text[0] == '('
    ensures Scan(parse, garbage + text) == Scan(parse, text)
  {
    var all := garbage + text;
    assert all[0..|garbage|] == garbage && all[|garbage|..] == text;
    FindIs(all, '(', 0, |garbage|);
    ScanFromStart(parse, all, |garbage|);
  }

  lemma ScanWellFormed(parse: Parse, limit: nat, w: string, more: string)
    requires WellFormed(parse, limit, w)
    ensures Scan(parse, w + more) == Prepend([Value(parse, limit, w)], Scan(parse, more))
  {
    var open := w[..|w| - 1];
    assert w == open + [')'];
    assert w + more == open + [')'] + more;
    CloseFrame(parse, open, more, w + more, w[1..|w| - 1]);
  }

  /** A beginning of a frame is left over as it is. */
  lemma ScanBeginning(parse: Parse, limit: nat, w: string, k: nat)
    requires WellFormed(parse, limit, w) && k < |w|
    ensures Normal(w[..k]) && Scan(parse, w[..k]) == Scanned([], w[..k]) && Trim(limit, w[..k]) == w[..k]
  {
    if k > 0 {
      assert w[..k] <= w[..|w| - 1];
    }
    ScanNormal(parse, w[..k]);
  }

  /** What a scan finds in a chunk before the last piece of it is as if that piece came as a chunk of its own. */
  lemma {:induction false} FeedRest(parse: Parse, limit: nat, buffer: string, chunk: string, found: seq<Sample>, piece: string, chunks: seq<string>)
    requires Scan(parse, buffer + chunk) == Prepend(found, Scan(parse, piece))
    ensures FeedAll(parse, limit, buffer, [chunk] + chunks) == Prepend(found, FeedAll(parse, limit, "", [piece] + chunks))
  {
    var scan := Scan(parse, piece);
    assert "" + piece == piece;
    FeedCons(parse, limit, buffer, chunk, chunks);
    FeedCons(parse, limit, "", piece, chunks);
    PrependBoth(found, scan.samples, FeedAll(parse, limit, Trim(limit, scan.rest), chunks));
  }

  // ---------------------------------------------------------------- in step

  lemma JoinCons(text: string, texts: seq<string>)
    ensures Join([text] + texts) == text + Join(texts)
  {
    assert ([text] + texts)[1..] == texts;
  }

  lemma FeedNothing(parse: Parse, limit: nat, buffer: string, chunk: string, chunks: seq<string>)
    requires Scan(parse, buffer + chunk).samples == []
    ensures FeedAll(parse, limit, buffer, [chunk] + chunks) ==
            FeedAll(parse, limit, Trim(limit, Scan(parse, buffer + chunk).rest), chunks)
  {
    FeedCons(parse, limit, buffer, chunk, chunks);
    PrependNone(FeedAll(parse, limit, Trim(limit, Scan(parse, buffer + chunk).rest), chunks));
  }

  /** Fed with good frames from a frame boundary, or from inside the first frame, the parser delivers them all. */
  lemma {:induction false} InStep(parse: Parse, limit: nat, buffer: string, ws: seq<string>, chunks: seq<string>)
    requires AllWellFormed(parse, limit, ws)
    requires if ws == [] then buffer == "" else |buffer| < |ws[0]|
    requires buffer + Join(chunks) == Join(ws)
    ensures FeedAll(parse, limit, buffer, chunks) == Scanned(Values(parse, limit, ws), "")
    decreases |chunks|, |ws|, 1
  {
    if chunks == [] {
      if ws != [] {
        Unfinished(buffer, ws);
      }
    } else {
      var c, r := chunks[0], chunks[1..];
      assert chunks == [c] + r;
      assert buffer + c + Join(r) == buffer + Join(chunks);
      if ws == [] {
        assert buffer + c == "" && Join(r) == "";
        InStepShort(parse, limit, buffer, c, r);
        InStep(parse, limit, "", ws, r);
      } else {
        InStepChunk(parse, limit, buffer, ws, c, r);
      }
    }
  }

  lemma {:induction false} InStepChunk(parse: Parse, limit: nat, buffer: string, ws: seq<string>, c: string, r: seq<string>)
    requires ws != [] && AllWellFormed(parse, limit, ws) && |buffer| < |ws[0]|
    requires buffer + c + Join(r) == Join(ws)
    ensures FeedAll(parse, limit, buffer, [c] + r) == Scanned(Values(parse, limit, ws), "")
    decreases |r| + 1, |ws|, 0
  {
    var t := buffer + c;
    if |t| < |ws[0]| {
      Short(t, Join(r), ws[0], Join(ws[1..]));
      ScanBeginning(parse, limit, ws[0], |t|);
      InStepShort(parse, limit, buffer, c, r);
      InStep(parse, limit, t, ws, r);
    } else {
      var piece := InStepFrame(parse, limit, buffer, ws, c, r);
      InStep(parse, limit, "", ws[1..], [piece] + r);
    }
  }

  /** A chunk that completes nothing. */
  lemma InStepShort(parse: Parse, limit: nat, buffer: string, c: string, r: seq<string>)
    requires Normal(buffer + c) && Trim(limit, buffer + c) == buffer + c
    ensures FeedAll(parse, limit, buffer, [c] + r) == FeedAll(parse, limit, buffer + c, r)
  {
    ScanNormal(parse, buffer + c);
    FeedNothing(parse, limit, buffer, c, r);
  }

  lemma Short(t: string, more: string, w: string, rest: string)
    requires t + more == w + rest && |t| < |w|
    ensures t == w[..|t|]
  {
    assert t == (t + more)[..|t|] == (w + rest)[..|t|] == w[..|t|];
  }

  lemma Unfinished(buffer: string, ws: seq<string>)
    requires ws != [] && |buffer| < |ws[0]|
    ensures buffer + Join([]) != Join(ws)
  {
    assert |Join(ws)| >= |ws[0]|;
  }

  lemma CutFront(t: string, more: string, w: string, rest: string)
    requires t + more == w + rest && |t| >= |w|
    ensures t == w + t[|w|..] && t[|w|..] + more == rest
  {
    assert t[..|w|] == (t + more)[..|w|] == (w + rest)[..|w|] == w;
    assert t[|w|..] + more == (t + more)[|w|..] == (w + rest)[|w|..] == rest;
  }

  /** The chunk that completes a frame. */
  lemma {:induction false} InStepFrame(parse: Parse, limit: nat, buffer: string, ws: seq<string>, c: string, r: seq<string>)
    returns (piece: string)
    requires ws != [] && AllWellFormed(parse, limit, ws)
    requires |buffer + c| >= |ws[0]| && buffer + c + Join(r) == Join(ws)
    ensures "" + Join([piece] + r) == Join(ws[1..])
    ensures FeedAll(parse, limit, buffer, [c] + r) ==
            Prepend([Value(parse, limit, ws[0])], FeedAll(parse, limit, "", [piece] + r))
  {
    piece := (buffer + c)[|ws[0]|..];
    CutFront(buffer + c, Join(r), ws[0], Join(ws[1..]));
    ScanWellFormed(parse, limit, ws[0], piece);
    FeedRest(parse, limit, buffer, c, [Value(parse, limit, ws[0])], piece, r);
    JoinCons(piece, r);
    assert "" + Join([piece] + r) == Join([piece] + r);
  }

  // ---------------------------------------------------------------- out of step

  /** The buffer when `k` characters of the first good frame have arrived after whatever was there before. */
  predicate Waiting(buffer: string, w: string, k: nat)
    requires k < |w|
  {
    && Normal(buffer) && EndsWith(buffer, w[..k])
    && (k > 0 ==> buffer != "" && buffer[0] == '(')
  }

  /** Nothing before the frame is in the way of it. */
  predicate Clear(buffer: string, w: string, k: nat)
    requires k < |w|
  {
    '(' !in buffer || buffer == w[..k]
  }

  /** A chunk that brings more of the first frame, but not its end, leaves the parser waiting for the rest. */
  lemma StillWaiting(parse: Parse, limit: nat, buffer: string, w: string, k: nat, c: string)
    requires WellFormed(parse, limit, w) && k < |w| && Waiting(buffer, w, k)
    requires k + |c| < |w| && c == w[k..k + |c|]
    ensures var scan := Scan(parse, buffer + c); var kept := Trim(limit, scan.rest);
      && scan.samples == []
      && Waiting(kept, w, k + |c|)
      && (Clear(buffer, w, k) ==> Clear(kept, w, k + |c|))
  {
    var k' := k + |c|;
    var t := buffer + c;
    if c == "" {
      assert t == buffer;
      ScanNormal(parse, buffer);
      TrimKeeps(limit, buffer);
      if k > 0 {
        KeptWaiting(limit, buffer, w, k);
      }
    } else if '(' in buffer {
      StillOpen(parse, limit, buffer, w, k, c);
    } else {
      assert k == 0 && c == w[..k'];
      SkipGarbage(parse, buffer, c);
      ScanBeginning(parse, limit, w, k');
      Whole(c);
    }
  }

  lemma Inside(w: string, k: nat, c: string)
    requires k + |c| < |w| && c == w[k..k + |c|] && ')' !in w[..|w| - 1]
    ensures ')' !in c
  {
    assert forall i :: 0 <= i < |c| ==> c[i] == w[..|w| - 1][k + i];
  }

  lemma KeptWaiting(limit: nat, t: string, w: string, k: nat)
    requires 0 < k < |w| <= limit && w[0] == '(' && '(' !in w[1..] && ')' !in w[..|w| - 1]
    requires Normal(t) && t != "" && t[0] == '(' && EndsWith(t, w[..k])
    ensures Waiting(Trim(limit, t), w, k)
    ensures t == w[..k] ==> Trim(limit, t) == t
  {
    TrimToFrame(limit, t, w, k);
    Whole(w[..k]);
    assert w[..k] <= w[..|w| - 1];
    assert w[..k][0] == '(';
  }

  lemma StillOpen(parse: Parse, limit: nat, buffer: string, w: string, k: nat, c: string)
    requires WellFormed(parse, limit, w) && k < |w| && Waiting(buffer, w, k) && '(' in buffer
    requires c != "" && k + |c| < |w| && c == w[k..k + |c|]
    ensures var scan := Scan(parse, buffer + c); var kept := Trim(limit, scan.rest);
      && scan.samples == []
      && Waiting(kept, w, k + |c|)
      && (Clear(buffer, w, k) ==> Clear(kept, w, k + |c|))
  {
    var t := buffer + c;
    EndsWithAppend(buffer, w[..k], c);
    assert w[..k] + c == w[..k + |c|];
    Inside(w, k, c);
    ScanNormal(parse, t);
    KeptWaiting(limit, t, w, k + |c|);
  }

  /** Trimming an open text that ends inside a good frame leaves the text or that beginning of the frame. */
  lemma TrimToFrame(limit: nat, t: string, w: string, k: nat)
    requires 0 < k < |w| <= limit && w[0] == '(' && '(' !in w[1..] && EndsWith(t, w[..k])
    ensures (Trim(limit, t) == t && |t| <= limit) || Trim(limit, t) == w[..k]
  {
    var at := |t| - k;
    assert t[at..] == w[..k];
    assert t[at] == w[..k][0] == '(';
    assert t[at + 1..] == w[..k][1..] == w[1..][..k - 1];
    FindLastIs(t, '(', at);
  }

  lemma {:induction false} FindLastIs(s: string, c: char, i: nat)
    requires i < |s| && s[i] == c && c !in s[i + 1..]
    ensures FindLast(s, c) == i
  {
    if i < |s| - 1 {
      assert s[i + 1..] == s[..|s| - 1][i + 1..] + [s[|s| - 1]];
      FindLastIs(s[..|s| - 1], c, i);
    }
  }

  /** The chunk that brings the end of the first frame: something, at most one sample, and then the parser is in step. */
  lemma EndOfWaiting(parse: Parse, limit: nat, buffer: string, w: string, k: nat, c: string, piece: string)
    returns (found: seq<Sample>)
    requires WellFormed(parse, limit, w) && k < |w| && Waiting(buffer, w, k) && c == w[k..] + piece
    ensures |found| <= 1 && Scan(parse, buffer + c) == Prepend(found, Scan(parse, piece))
    ensures Clear(buffer, w, k) ==> found == [Value(parse, limit, w)]
  {
    if Clear(buffer, w, k) {
      found := [Value(parse, limit, w)];
      EndClear(parse, limit, buffer, w, k, c, piece);
    } else {
      found := EndOpen(parse, buffer, w, k, c, piece);
    }
  }

  lemma EndClear(parse: Parse, limit: nat, buffer: string, w: string, k: nat, c: string, piece: string)
    requires WellFormed(parse, limit, w) && k < |w| && Waiting(buffer, w, k) && c == w[k..] + piece
    requires Clear(buffer, w, k)
    ensures Scan(parse, buffer + c) == Prepend([Value(parse, limit, w)], Scan(parse, piece))
  {
    ScanWellFormed(parse, limit, w, piece);
    if buffer == w[..k] {
      Reassembled(w, k, piece);
    } else {
      WholeFrom(w, k, piece);
      SkipGarbage(parse, buffer, w + piece);
    }
  }

  lemma Reassembled(w: string, k: nat, piece: string)
    requires k <= |w|
    ensures w[..k] + (w[k..] + piece) == w + piece
  {
  }

  lemma WholeFrom(w: string, k: nat, piece: string)
    requires k == 0
    ensures w[k..] + piece == w + piece
  {
  }

  lemma EndOpen(parse: Parse, buffer: string, w: string, k: nat, c: string, piece: string) returns (found: seq<Sample>)
    requires buffer != "" && buffer[0] == '(' && ')' !in buffer
    requires k < |w| && w[|w| - 1] == ')' && ')' !in w[..|w| - 1] && c == w[k..] + piece
    ensures |found| <= 1 && Scan(parse, buffer + c) == Prepend(found, Scan(parse, piece))
  {
    var inner := w[k..|w| - 1];
    Inside(w, k, inner);
    var open := buffer + inner;
    assert w[k..] == inner + [')'];
    assert buffer + c == open + [')'] + piece;
    CloseFrame(parse, open, piece, buffer + c, open[1..]);
    found := Collect(parse(open[1..]));
  }

  /** Out of step: the first good frame may be swallowed, all that follow it immediately are delivered. */
  lemma {:induction false} Resumes(parse: Parse, limit: nat, buffer: string, w: string, k: nat, ws: seq<string>, chunks: seq<string>)
    returns (found: seq<Sample>)
    requires WellFormed(parse, limit, w) && AllWellFormed(parse, limit, ws)
    requires k < |w| && Waiting(buffer, w, k) && Join(chunks) == w[k..] + Join(ws)
    ensures |found| <= 1 && FeedAll(parse, limit, buffer, chunks) == Scanned(found + Values(parse, limit, ws), "")
    ensures Clear(buffer, w, k) ==> found == [Value(parse, limit, w)]
    decreases |chunks|, 1
  {
    if chunks == [] {
      found := [];
      Missing(w, k, Join(ws));
    } else {
      assert chunks == [chunks[0]] + chunks[1..];
      found := ResumesChunk(parse, limit, buffer, w, k, ws, chunks[0], chunks[1..]);
    }
  }

  lemma {:induction false} ResumesChunk(parse: Parse, limit: nat, buffer: string, w: string, k: nat, ws: seq<string>, c: string, r: seq<string>)
    returns (found: seq<Sample>)
    requires WellFormed(parse, limit, w) && AllWellFormed(parse, limit, ws)
    requires k < |w| && Waiting(buffer, w, k) && c + Join(r) == w[k..] + Join(ws)
    ensures |found| <= 1 && FeedAll(parse, limit, buffer, [c] + r) == Scanned(found + Values(parse, limit, ws), "")
    ensures Clear(buffer, w, k) ==> found == [Value(parse, limit, w)]
    decreases |r| + 1, 0
  {
    if k + |c| < |w| {
      var kept, k' := ResumesPart(parse, limit, buffer, w, k, Join(ws), c, r);
      found := Resumes(parse, limit, kept, w, k', ws, r);
    } else {
      found := ResumesEnd(parse, limit, buffer, w, k, ws, c, r);
    }
  }

  lemma Missing(w: string, k: nat, rest: string)
    requires k < |w|
    ensures Join([]) != w[k..] + rest
  {
  }

  lemma ResumesPart(parse: Parse, limit: nat, buffer: string, w: string, k: nat, rest: string, c: string, r: seq<string>)
    returns (kept: string, k': nat)
    requires WellFormed(parse, limit, w)
    requires k < |w| && Waiting(buffer, w, k) && k + |c| < |w| && c + Join(r) == w[k..] + rest
    ensures k' < |w| && Waiting(kept, w, k') && (Clear(buffer, w, k) ==> Clear(kept, w, k'))
    ensures Join(r) == w[k'..] + rest
    ensures FeedAll(parse, limit, buffer, [c] + r) == FeedAll(parse, limit, kept, r)
  {
    CutInside(w, k, c, Join(r), rest);
    StillWaiting(parse, limit, buffer, w, k, c);
    FeedNothing(parse, limit, buffer, c, r);
    kept, k' := Trim(limit, Scan(parse, buffer + c).rest), k + |c|;
  }

  lemma ResumesEnd(parse: Parse, limit: nat, buffer: string, w: string, k: nat, ws: seq<string>, c: string, r: seq<string>)
    returns (found: seq<Sample>)
    requires WellFormed(parse, limit, w) && AllWellFormed(parse, limit, ws)
    requires k < |w| && Waiting(buffer, w, k) && k + |c| >= |w| && c + Join(r) == w[k..] + Join(ws)
    ensures |found| <= 1 && FeedAll(parse, limit, buffer, [c] + r) == Scanned(found + Values(parse, limit, ws), "")
    ensures Clear(buffer, w, k) ==> found == [Value(parse, limit, w)]
  {
    CutFront(c, Join(r), w[k..], Join(ws));
    var piece := c[|w[k..]|..];
    found := EndOfWaiting(parse, limit, buffer, w, k, c, piece);
    ResumesRest(parse, limit, buffer, ws, c, found, piece, r);
  }

  lemma {:induction false} ResumesRest(parse: Parse, limit: nat, buffer: string, ws: seq<string>, c: string, found: seq<Sample>, piece: string, r: seq<string>)
    requires AllWellFormed(parse, limit, ws) && piece + Join(r) == Join(ws)
    requires Scan(parse, buffer + c) == Prepend(found, Scan(parse, piece))
    ensures FeedAll(parse, limit, buffer, [c] + r) == Scanned(found + Values(parse, limit, ws), "")
  {
    FeedRest(parse, limit, buffer, c, found, piece, r);
    JoinCons(piece, r);
    assert "" + Join([piece] + r) == Join(ws);
    InStep(parse, limit, "", ws, [piece] + r);
  }

  lemma CutInside(w: string, k: nat, c: string, more: string, rest: string)
    requires k + |c| < |w| && c + more == w[k..] + rest
    ensures c == w[k..k + |c|] && more == w[k + |c|..] + rest
  {
    assert c == (c + more)[..|c|] == (w[k..] + rest)[..|c|] == w[k..][..|c|];
    assert more == (c + more)[|c|..] == (w[k..] + rest)[|c|..] == w[k..][|c|..] + rest;
  }

  lemma ResumesFrom(parse: Parse, limit: nat, buffer: string, ws: seq<string>, chunks: seq<string>) returns (found: seq<Sample>)
    requires ws != [] && AllWellFormed(parse, limit, ws) && Join(chunks) == Join(ws)
    requires Normal(buffer)
    ensures |found| <= 1 && FeedAll(parse, limit, buffer, chunks) == Scanned(found + Values(parse, limit, ws[1..]), "")
    ensures '(' !in buffer ==> found == [Value(parse, limit, ws[0])]
  {
    var w := ws[0];
    assert w[..0] == "" && w[0..] == w;
    assert Join(ws) == w + Join(ws[1..]);
    found := Resumes(parse, limit, buffer, w, 0, ws[1..], chunks);
  }

  // ---------------------------------------------------------------- any cutting

  /** The samples that are out, and the text the parser holds, when character `n` of a stream arrives. */
  function Reach(parse: Parse, limit: nat, buffer: string, chunks: seq<string>, n: nat): Scanned
    decreases |chunks|
  {
    if chunks == [] then Scanned([], buffer)
    else if n < |chunks[0]| then Scan(parse, buffer + chunks[0][..n])
    else
      var f := Feed(parse, limit, buffer, chunks[0]);
      Prepend(f.samples, Reach(parse, limit, f.rest, chunks[1..], n - |chunks[0]|))
  }

  /** A chunk fed in two scans, the first one without trimming. */
  lemma FeedInTwo(parse: Parse, limit: nat, buffer: string, a: string, b: string, r: seq<string>)
    ensures var scan := Scan(parse, buffer + a);
      FeedAll(parse, limit, buffer, [a + b] + r) == Prepend(scan.samples, FeedAll(parse, limit, scan.rest, [b] + r))
  {
    var scan := Scan(parse, buffer + a);
    assert buffer + (a + b) == buffer + a + b;
    ScanSplit(parse, buffer + a, b);
    assert ([a + b] + r)[1..] == r && ([b] + r)[1..] == r;
    var tail := Scan(parse, scan.rest + b);
    PrependBoth(scan.samples, tail.samples, FeedAll(parse, limit, Trim(limit, tail.rest), r));
  }

  lemma ReachCons(parse: Parse, limit: nat, buffer: string, c: string, r: seq<string>, n: nat)
    ensures n < |c| ==> Reach(parse, limit, buffer, [c] + r, n) == Scan(parse, buffer + c[..n])
    ensures n >= |c| ==>
      var f := Feed(parse, limit, buffer, c);
      Reach(parse, limit, buffer, [c] + r, n) == Prepend(f.samples, Reach(parse, limit, f.rest, r, n - |c|))
  {
    assert ([c] + r)[1..] == r;
  }

  lemma SomeChunk(chunks: seq<string>, garbage: string, ws: seq<string>)
    requires ws != [] && ws[0] != "" && Join(chunks) == garbage + Join(ws)
    ensures chunks != []
  {
    assert |Join(ws)| >= |ws[0]|;
  }

  /** The good frames come out behind what is out when the first of them arrives. */
  predicate Recovered(parse: Parse, limit: nat, reach: Scanned, ws: seq<string>, found: seq<Sample>, all: Scanned)
    requires ws != [] && AllWellFormed(parse, limit, ws)
  {
    && |found| <= 1
    && all == Scanned(reach.samples + (found + Values(parse, limit, ws[1..])), "")
    && ('(' !in reach.rest ==> found == [Value(parse, limit, ws[0])])
  }

  /** The chunk in which the garbage ends and the first good frame begins. */
  lemma RecoversHere(parse: Parse, limit: nat, buffer: string, garbage: string, ws: seq<string>, c: string, r: seq<string>)
    returns (found: seq<Sample>)
    requires Normal(buffer) && ws != [] && AllWellFormed(parse, limit, ws)
    requires c + Join(r) == garbage + Join(ws) && |garbage| < |c|
    ensures Recovered(parse, limit, Scan(parse, buffer + c[..|garbage|]), ws, found, FeedAll(parse, limit, buffer, [c] + r))
  {
    CutFront(c, Join(r), garbage, Join(ws));
    var piece := c[|garbage|..];
    assert c[..|garbage|] == garbage;
    var scan := Scan(parse, buffer + garbage);
    ScanLeftover(parse, buffer + garbage);
    FeedInTwo(parse, limit, buffer, garbage, piece, r);
    JoinCons(piece, r);
    found := ResumesFrom(parse, limit, scan.rest, ws, [piece] + r);
  }

  lemma RecoveredLater(parse: Parse, limit: nat, earlier: seq<Sample>, reach: Scanned, ws: seq<string>, found: seq<Sample>, all: Scanned)
    requires ws != [] && AllWellFormed(parse, limit, ws) && Recovered(parse, limit, reach, ws, found, all)
    ensures Recovered(parse, limit, Prepend(earlier, reach), ws, found, Prepend(earlier, all))
  {
    var expected := found + Values(parse, limit, ws[1..]);
    assert earlier + (reach.samples + expected) == earlier + reach.samples + expected;
  }

  /** Garbage and good frames, in any chunks. */
  lemma {:induction false} Recovers(parse: Parse, limit: nat, buffer: string, garbage: string, ws: seq<string>, chunks: seq<string>)
    returns (found: seq<Sample>)
    requires Normal(buffer) && ws != [] && AllWellFormed(parse, limit, ws) && Join(chunks) == garbage + Join(ws)
    ensures Recovered(parse, limit, Reach(parse, limit, buffer, chunks, |garbage|), ws, found, FeedAll(parse, limit, buffer, chunks))
    decreases |chunks|
  {
    SomeChunk(chunks, garbage, ws);
    var c, r := chunks[0], chunks[1..];
    assert chunks == [c] + r;
    ReachCons(parse, limit, buffer, c, r, |garbage|);
    if |garbage| < |c| {
      found := RecoversHere(parse, limit, buffer, garbage, ws, c, r);
    } else {
      CutFront(garbage, Join(ws), c, Join(r));
      var f := Feed(parse, limit, buffer, c);
      FeedKeeps(parse, limit, buffer, c);
      FeedCons(parse, limit, buffer, c, r);
      found := Recovers(parse, limit, f.rest, garbage[|c|..], ws, r);
      RecoveredLater(parse, limit, f.samples, Reach(parse, limit, f.rest, r, |garbage| - |c|), ws, found, FeedAll(parse, limit, f.rest, r));
    }
  }

  /** The chunks of the first `m` characters. */
  function Front(chunks: seq<string>, m: nat): seq<string> {
    if chunks == [] then []
    else if m <= |chunks[0]| then [chunks[0][..m]]
    else [chunks[0]] + Front(chunks[1..], m - |chunks[0]|)
  }

  lemma {:induction false} FrontJoin(chunks: seq<string>, m: nat)
    requires m <= |Join(chunks)|
    ensures Join(Front(chunks, m)) == Join(chunks)[..m]
  {
    if chunks == [] {
    } else {
      var c, r := chunks[0], chunks[1..];
      if m <= |c| {
        JoinCons(c[..m], []);
      } else {
        FrontJoin(r, m - |c|);
        JoinCons(c, Front(r, m - |c|));
      }
    }
  }

  lemma FrontCons(c: string, r: seq<string>, m: nat)
    ensures Front([c] + r, m) == if m <= |c| then [c[..m]] else [c] + Front(r, m - |c|)
  {
    assert ([c] + r)[1..] == r;
  }

  lemma {:induction false} FeedOne(parse: Parse, limit: nat, buffer: string, a: string)
    ensures FeedAll(parse, limit, buffer, [a]).samples == Scan(parse, buffer + a).samples
  {
    assert [a] == [a] + [];
    FeedCons(parse, limit, buffer, a, []);
  }

  lemma {:induction false} FrontHere(parse: Parse, limit: nat, buffer: string, a: string, b: string, r: seq<string>)
    ensures FeedAll(parse, limit, buffer, [a]).samples <= FeedAll(parse, limit, buffer, [a + b] + r).samples
  {
    FeedInTwo(parse, limit, buffer, a, b, r);
    FeedOne(parse, limit, buffer, a);
  }

  lemma FrontBehind(parse: Parse, limit: nat, buffer: string, c: string, short: seq<string>, long: seq<string>)
    requires var kept := Feed(parse, limit, buffer, c).rest;
      FeedAll(parse, limit, kept, short).samples <= FeedAll(parse, limit, kept, long).samples
    ensures FeedAll(parse, limit, buffer, [c] + short).samples <= FeedAll(parse, limit, buffer, [c] + long).samples
  {
    FeedCons(parse, limit, buffer, c, short);
    FeedCons(parse, limit, buffer, c, long);
  }

  /** What comes out of the first `m` characters does not depend on what follows them. */
  lemma {:induction false} FrontFirst(parse: Parse, limit: nat, buffer: string, chunks: seq<string>, m: nat)
    ensures FeedAll(parse, limit, buffer, Front(chunks, m)).samples <= FeedAll(parse, limit, buffer, chunks).samples
    decreases |chunks|
  {
    if chunks == [] {
    } else {
      var c, r := chunks[0], chunks[1..];
      assert chunks == [c] + r;
      FrontCons(c, r, m);
      if m <= |c| {
        assert c[..m] + c[m..] == c;
        FrontHere(parse, limit, buffer, c[..m], c[m..], r);
      } else {
        FrontFirst(parse, limit, Feed(parse, limit, buffer, c).rest, r, m - |c|);
        FrontBehind(parse, limit, buffer, c, Front(r, m - |c|), r);
      }
    }
  }

  /** Nor does what the parser has when an earlier one arrives. */
  lemma {:induction false} FrontReach(parse: Parse, limit: nat, buffer: string, chunks: seq<string>, m: nat, n: nat)
    requires n < m
    ensures Reach(parse, limit, buffer, Front(chunks, m), n) == Reach(parse, limit, buffer, chunks, n)
    decreases |chunks|
  {
    if chunks == [] {
    } else {
      var c, r := chunks[0], chunks[1..];
      assert chunks == [c] + r;
      ReachCons(parse, limit, buffer, c, r, n);
      FrontCons(c, r, m);
      if m <= |c| {
        assert c[..m][..n] == c[..n] && [c[..m]] == [c[..m]] + [];
        ReachCons(parse, limit, buffer, c[..m], [], n);
      } else {
        ReachCons(parse, limit, buffer, c, Front(r, m - |c|), n);
        if n >= |c| {
          FrontReach(parse, limit, Feed(parse, limit, buffer, c).rest, r, m - |c|, n - |c|);
        }
      }
    }
  }

  lemma FrontIsGood(chunks: seq<string>, garbage: string, ws: seq<string>, more: string) returns (m: nat)
    requires ws != [] && ws[0] != "" && Join(chunks) == garbage + Join(ws) + more
    ensures m > |garbage| && Join(Front(chunks, m)) == garbage + Join(ws)
  {
    m := |garbage + Join(ws)|;
    assert |Join(ws)| >= |ws[0]|;
    FrontJoin(chunks, m);
    assert (garbage + Join(ws) + more)[..m] == garbage + Join(ws);
  }

  lemma RecoveredSamples(parse: Parse, limit: nat, reach: Scanned, ws: seq<string>, found: seq<Sample>, part: Scanned, all: Scanned)
    returns (later: seq<Sample>)
    requires ws != [] && AllWellFormed(parse, limit, ws)
    requires Recovered(parse, limit, reach, ws, found, part) && part.samples <= all.samples
    ensures all.samples == reach.samples + found + Values(parse, limit, ws[1..]) + later
    ensures part == all ==> later == []
  {
    later := all.samples[|part.samples|..];
    assert all.samples == part.samples + later;
  }

  /**
   * Self-stabilisation. Take any garbage, then well-formed frames one after the other, then anything, and
   * cut this stream into chunks in any way. The frames are all delivered in order, right after what comes
   * out of the garbage, except that something else may come out in place of the first one, or nothing;
   * this cannot happen when no frame is open where the garbage ends. If nothing follows, nothing is left over.
   */
  lemma SelfStabilises(parse: Parse, limit: nat, garbage: string, ws: seq<string>, more: string, chunks: seq<string>)
    returns (found: seq<Sample>, later: seq<Sample>)
    requires ws != [] && AllWellFormed(parse, limit, ws) && Join(chunks) == garbage + Join(ws) + more
    ensures var reach := Reach(parse, limit, "", chunks, |garbage|);
      && |found| <= 1
      && FeedAll(parse, limit, "", chunks).samples == reach.samples + found + Values(parse, limit, ws[1..]) + later
      && ('(' !in reach.rest ==> found == [Value(parse, limit, ws[0])])
    ensures more == "" ==> later == [] && FeedAll(parse, limit, "", chunks).rest == ""
  {
    if more == "" {
      assert garbage + Join(ws) + more == garbage + Join(ws);
      found := Recovers(parse, limit, "", garbage, ws, chunks);
      later := RecoveredSamples(parse, limit, Reach(parse, limit, "", chunks, |garbage|), ws, found,
                                FeedAll(parse, limit, "", chunks), FeedAll(parse, limit, "", chunks));
    } else {
      var m := FrontIsGood(chunks, garbage, ws, more);
      found := Recovers(parse, limit, "", garbage, ws, Front(chunks, m));
      FrontReach(parse, limit, "", chunks, m, |garbage|);
      FrontFirst(parse, limit, "", chunks, m);
      later := RecoveredSamples(parse, limit, Reach(parse, limit, "", chunks, |garbage|), ws, found,
                                FeedAll(parse, limit, "", Front(chunks, m)), FeedAll(parse, limit, "", chunks));
    }
  }
}
