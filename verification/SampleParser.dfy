/** The incremental parser of the force-torque stream: six numbers between parentheses, separated by commas. */
module SampleParser {
  import opened Messages
  import opened Wrappers

  /** Three forces and three torques. */
  datatype Sample = Sample(fx: real, fy: real, fz: real, tx: real, ty: real, tz: real)

  /** What `float` makes of a field. */
  datatype Number = Invalid | NonFinite | Finite(value: real)

  const SMALLEST_LIMIT := 64

  // ---------------------------------------------------------------- text

  /** The first index of a character at or after `from`, or -1. */
  function Find(s: string, c: char, from: nat): (i: int)
    requires from <= |s|
    ensures i == -1 <==> c !in s[from..]
    ensures i != -1 ==> from <= i < |s| && s[i] == c && c !in s[from..i]
    decreases |s| - from
  {
    if from == |s| then -1
    else if s[from] == c then from
    else
      var i := Find(s, c, from + 1);
      assert s[from..] == [s[from]] + s[from + 1..];
      assert i != -1 ==> s[from..i] == [s[from]] + s[from + 1..i];
      i
  }

  /** The last index of a character, or -1. */
  function FindLast(s: string, c: char): (i: int)
    ensures i == -1 <==> c !in s
    ensures i != -1 ==> 0 <= i < |s| && s[i] == c && c !in s[i + 1..]
  {
    if s == "" then -1
    else if s[|s| - 1] == c then |s| - 1
    else
      var i := FindLast(s[..|s| - 1], c);
      assert s == s[..|s| - 1] + [s[|s| - 1]];
      assert i != -1 ==> s[i + 1..] == s[..|s| - 1][i + 1..] + [s[|s| - 1]];
      i
  }

  function Split(s: string, c: char): (fields: seq<string>)
    ensures fields != []
  {
    var i := Find(s, c, 0);
    if i == -1 then [s] else [s[..i]] + Split(s[i + 1..], c)
  }

  predicate IsSpace(c: char) {
    c == ' ' || '\t' <= c <= '\r' || '\U{1c}' <= c <= '\U{1f}'
  }

  function Strip(s: string): string {
    if s == "" then ""
    else if IsSpace(s[0]) then Strip(s[1..])
    else if IsSpace(s[|s| - 1]) then Strip(s[..|s| - 1])
    else s
  }

  /** Bytes outside ASCII are left out. */
  function Decode(bytes: seq<uint8>): string {
    if bytes == [] then ""
    else Decode(bytes[..|bytes| - 1]) + (if bytes[|bytes| - 1] < 128 then [bytes[|bytes| - 1] as char] else "")
  }

  // ---------------------------------------------------------------- frames

  function ParsePayload(number: string -> Number, payload: string): Option<Sample> {
    var fields := Split(payload, ',');
    if |fields| != 6 then None
    else
      var values := seq(6, k requires 0 <= k < 6 => number(Strip(fields[k])));
      if exists k :: 0 <= k < 6 && !values[k].Finite? then None
      else
        assert forall k :: 0 <= k < 6 ==> values[k].Finite?;
        Some(Sample(values[0].value, values[1].value, values[2].value, values[3].value, values[4].value, values[5].value))
  }

  /** What a payload stands for, if anything. */
  type Parse = string -> Option<Sample>

  function PayloadParser(number: string -> Number): Parse {
    payload => ParsePayload(number, payload)
  }

  function Collect(o: Option<Sample>): seq<Sample> {
    if o.Some? then [o.value] else []
  }

  /** Samples found, and the text left over. */
  datatype Scanned = Scanned(samples: seq<Sample>, rest: string)

  function Prepend(found: seq<Sample>, scan: Scanned): Scanned {
    Scanned(found + scan.samples, scan.rest)
  }

  /** A text at its first frame: its payload and what follows it, or what is left if no whole frame is there. */
  datatype Cut = Frame(payload: string, more: string) | NoFrame(rest: string)

  function CutFrame(text: string): (c: Cut)
    ensures c.Frame? ==> |c.more| < |text|
  {
    var start := Find(text, '(', 0);
    if start < 0 then NoFrame(text)
    else
      var rest := text[start..];
      var end := Find(rest, ')', 1);
      if end < 0 then NoFrame(rest) else Frame(rest[1..end], rest[end + 1..])
  }

  /** The samples of all frames in a text, and what is left when no whole frame is. */
  function Scan(parse: Parse, text: string): Scanned
    decreases |text|
  {
    match CutFrame(text)
    case NoFrame(rest) => Scanned([], rest)
    case Frame(payload, more) => Prepend(Collect(parse(payload)), Scan(parse, more))
  }

  /** What is kept of an unfinished text. */
  function Trim(limit: nat, text: string): string {
    if |text| <= limit then text
    else
      var last := FindLast(text, '(');
      if last < 0 then ""
      else if |text| - last > limit then "" else text[last..]
  }

  function Feed(parse: Parse, limit: nat, buffer: string, text: string): Scanned {
    var scan := Scan(parse, buffer + text);
    scan.(rest := Trim(limit, scan.rest))
  }

  // ---------------------------------------------------------------- the parser

  datatype Chunk = Bytes(bytes: seq<uint8>) | Text(text: string)

  function TextOf(chunk: Chunk): string {
    if chunk.Bytes? then Decode(chunk.bytes) else chunk.text
  }

  class Parser {
    const limit: nat
    const number: string -> Number
    var buffer: string

    constructor (limit: nat, number: string -> Number)
      requires limit >= SMALLEST_LIMIT
      ensures this.limit == limit && this.number == number && buffer == ""
    {
      this.limit := limit;
      this.number := number;
      buffer := "";
    }

    method Reset()
      modifies this`buffer
      ensures buffer == ""
    {
      buffer := "";
    }

    method FeedChunk(chunk: Chunk) returns (samples: seq<Sample>)
      modifies this`buffer
      ensures Scanned(samples, buffer) == Feed(PayloadParser(number), limit, old(buffer), TextOf(chunk))
    {
      buffer := buffer + TextOf(chunk);
      ghost var text := buffer;
      ghost var parse := PayloadParser(number);
      samples := [];
      PrependNone(Scan(parse, text));
      while true
        invariant ScannedTo(parse, text, samples, buffer)
        decreases |buffer|
      {
        var start := Find(buffer, '(', 0);
        if start < 0 {
          NothingLeft(parse, text, samples, buffer);
          TrimWithoutStartMarker();
          return;
        }
        if start > 0 {
          SkipTo(parse, text, samples, buffer, start);
          buffer := buffer[start..];
        }
        var end := Find(buffer, ')', 1);
        if end < 0 {
          NothingLeft(parse, text, samples, buffer);
          TrimIncompleteFrame();
          return;
        }
        var payload := buffer[1..end];
        TakeFrame(parse, text, samples, buffer, end);
        buffer := buffer[end + 1..];
        var values := ParsePayload(number, payload);
        samples := samples + Collect(values);
      }
    }

    method TrimWithoutStartMarker()
      requires '(' !in buffer
      modifies this`buffer
      ensures buffer == Trim(limit, old(buffer))
    {
      if |buffer| > limit {
        buffer := "";
      }
    }

    method TrimIncompleteFrame()
      requires '(' in buffer
      modifies this`buffer
      ensures buffer == Trim(limit, old(buffer))
    {
      if |buffer| <= limit {
        return;
      }
      var latest := FindLast(buffer, '(');
      buffer := buffer[latest..];
      if |buffer| > limit {
        buffer := "";
      }
    }
  }

  datatype SetupError = LimitTooSmall

  /** `__init__`, which refuses a limit below 64. */
  method NewParser(limit: nat, number: string -> Number) returns (r: Result<Parser, SetupError>)
    ensures r.Success? <==> limit >= SMALLEST_LIMIT
    ensures r.Success? ==> fresh(r.value) && r.value.limit == limit && r.value.number == number && r.value.buffer == ""
  {
    if limit < SMALLEST_LIMIT {
      return Failure(LimitTooSmall);
    }
    var parser := new Parser(limit, number);
    return Success(parser);
  }

  // ---------------------------------------------------------------- the steps of the loop

  lemma PrependNone(scan: Scanned)
    ensures Prepend([], scan) == scan
  {
    assert [] + scan.samples == scan.samples;
  }

  lemma PrependBoth(found: seq<Sample>, more: seq<Sample>, scan: Scanned)
    ensures Prepend(found, Prepend(more, scan)) == Prepend(found + more, scan)
  {
    assert found + (more + scan.samples) == found + more + scan.samples;
  }

  /** The samples found so far and the scan of the rest make up the scan of the text. */
  predicate ScannedTo(parse: Parse, text: string, samples: seq<Sample>, rest: string) {
    Scan(parse, text) == Prepend(samples, Scan(parse, rest))
  }

  lemma ScanFromStart(parse: Parse, text: string, start: nat)
    requires start <= |text| && Find(text, '(', 0) == start
    ensures Scan(parse, text[start..]) == Scan(parse, text)
  {
    FindHere(text[start..], '(');
  }

  lemma ScanStep(parse: Parse, text: string, start: nat, rest: string, end: nat)
    requires start < |text| && Find(text, '(', 0) == start && rest == text[start..]
    requires 1 <= end < |rest| && Find(rest, ')', 1) == end
    ensures Scan(parse, text) == Prepend(Collect(parse(rest[1..end])), Scan(parse, rest[end + 1..]))
  {
    assert CutFrame(text) == Frame(rest[1..end], rest[end + 1..]);
  }

  lemma FindHere(text: string, c: char)
    requires text != "" && text[0] == c
    ensures Find(text, c, 0) == 0 && text[0..] == text
  {
  }

  lemma ScanFrame(parse: Parse, text: string, end: nat)
    requires 1 <= end < |text| && text[0] == '(' && Find(text, ')', 1) == end
    ensures Scan(parse, text) == Prepend(Collect(parse(text[1..end])), Scan(parse, text[end + 1..]))
  {
    FindHere(text, '(');
    ScanStep(parse, text, 0, text, end);
  }

  lemma ScanNothing(parse: Parse, text: string)
    requires Find(text, '(', 0) < 0 || (text[0] == '(' && Find(text, ')', 1) < 0)
    ensures Scan(parse, text) == Scanned([], text)
  {
    if text != "" && text[0] == '(' {
      assert Find(text, '(', 0) == 0 && text[0..] == text;
    }
  }

  lemma SkipTo(parse: Parse, text: string, samples: seq<Sample>, buffer: string, start: nat)
    requires ScannedTo(parse, text, samples, buffer) && start <= |buffer| && Find(buffer, '(', 0) == start
    ensures ScannedTo(parse, text, samples, buffer[start..])
  {
    ScanFromStart(parse, buffer, start);
  }

  lemma TakeFrame(parse: Parse, text: string, samples: seq<Sample>, buffer: string, end: nat)
    requires ScannedTo(parse, text, samples, buffer)
    requires 1 <= end < |buffer| && buffer[0] == '(' && Find(buffer, ')', 1) == end
    ensures ScannedTo(parse, text, samples + Collect(parse(buffer[1..end])), buffer[end + 1..])
  {
    ScanFrame(parse, buffer, end);
    PrependBoth(samples, Collect(parse(buffer[1..end])), Scan(parse, buffer[end + 1..]));
  }

  lemma NothingLeft(parse: Parse, text: string, samples: seq<Sample>, buffer: string)
    requires ScannedTo(parse, text, samples, buffer)
    requires Find(buffer, '(', 0) < 0 || (buffer[0] == '(' && Find(buffer, ')', 1) < 0)
    ensures Scan(parse, text) == Scanned(samples, buffer)
  {
    ScanNothing(parse, buffer);
    assert samples + [] == samples;
  }
}
