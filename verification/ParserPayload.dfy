/** What one frame of the force-torque stream stands for, from its bytes to the six numbers. */
module ParserPayload {
  import opened Messages
  import opened ParserRecovery
  import opened ParserTheorems
  import opened SampleParser
  import opened Wrappers

  // ---------------------------------------------------------------- bytes

  /** ASCII bytes are the characters of their numbers ... */
  lemma {:induction false} AsciiIsKept(bytes: seq<uint8>)
    requires forall k :: 0 <= k < |bytes| ==> bytes[k] < 128
    ensures |Decode(bytes)| == |bytes|
    ensures forall k :: 0 <= k < |bytes| ==> Decode(bytes)[k] as int == bytes[k]
  {
    if bytes != [] {
      AsciiIsKept(bytes[..|bytes| - 1]);
    }
  }

  /** ... and all others are as if they had not been sent. */
  lemma OthersAreDropped(before: seq<uint8>, x: uint8, after: seq<uint8>)
    requires x >= 128
    ensures Decode(before + [x] + after) == Decode(before + after)
  {
    DecodeSplit(before + [x], after);
    DecodeSplit(before, after);
    assert (before + [x])[..|before + [x]| - 1] == before;
  }

  // ---------------------------------------------------------------- fields

  /** The characters that may surround a number. */
  predicate Blank(c: char) {
    c as int == 32 || 9 <= c as int <= 13 || 28 <= c as int <= 31
  }

  predicate Blanks(s: string) {
    forall k :: 0 <= k < |s| ==> Blank(s[k])
  }

  /** A field: some blanks, a core that neither begins nor ends with one, some blanks. */
  datatype Field = Field(before: string, core: string, after: string)

  function Text(f: Field): string {
    f.before + f.core + f.after
  }

  predicate Proper(f: Field) {
    && Blanks(f.before) && Blanks(f.after)
    && (f.core != "" ==> !Blank(f.core[0]) && !Blank(f.core[|f.core| - 1]))
    && ',' !in f.core && ')' !in f.core
  }

  predicate AllProper(fields: seq<Field>) {
    forall k :: 0 <= k < |fields| ==> Proper(fields[k])
  }

  /** Fields with commas between them. */
  function Joined(fields: seq<Field>): string {
    if fields == [] then ""
    else if |fields| == 1 then Text(fields[0])
    else Text(fields[0]) + [','] + Joined(fields[1..])
  }

  function Texts(fields: seq<Field>): seq<string> {
    if fields == [] then [] else [Text(fields[0])] + Texts(fields[1..])
  }

  lemma {:induction false} TextsAt(fields: seq<Field>, k: nat)
    requires k < |fields|
    ensures |Texts(fields)| == |fields| && Texts(fields)[k] == Text(fields[k])
  {
    if |fields| > 1 {
      TextsAt(fields[1..], if k == 0 then 0 else k - 1);
    }
  }

  lemma BlankIsNone(s: string, c: char)
    requires Blanks(s) && !Blank(c)
    ensures c !in s
  {
  }

  lemma TextLacks(f: Field, c: char)
    requires Proper(f) && (c == ',' || c == ')')
    ensures c !in Text(f)
  {
    BlankIsNone(f.before, c);
    BlankIsNone(f.after, c);
  }

  lemma SplitHere(s: string, c: char, t: string)
    requires c !in s
    ensures Split(s, c) == [s] && Split(s + [c] + t, c) == [s] + Split(t, c)
  {
    var u := s + [c] + t;
    assert s[0..] == s && u[0..|s|] == s && u[..|s|] == s && u[|s| + 1..] == t;
    FindIs(u, c, 0, |s|);
  }

  /** Splitting at the commas gives the fields back. */
  lemma {:induction false} SplitJoined(fields: seq<Field>)
    requires fields != [] && AllProper(fields)
    ensures Split(Joined(fields), ',') == Texts(fields)
    ensures ')' !in Joined(fields)
  {
    TextLacks(fields[0], ',');
    TextLacks(fields[0], ')');
    if |fields| > 1 {
      SplitJoined(fields[1..]);
      SplitHere(Text(fields[0]), ',', Joined(fields[1..]));
    } else {
      SplitHere(Text(fields[0]), ',', "");
      assert Texts(fields) == [Text(fields[0])] + Texts(fields[1..]);
    }
  }

  lemma BlankIsSpace(c: char)
    ensures IsSpace(c) <==> Blank(c)
  {
  }

  lemma StripFront(s: string)
    requires s != "" && Blank(s[0])
    ensures Strip(s) == Strip(s[1..])
  {
    BlankIsSpace(s[0]);
  }

  lemma StripBack(s: string)
    requires s != "" && !Blank(s[0]) && Blank(s[|s| - 1])
    ensures Strip(s) == Strip(s[..|s| - 1])
  {
    BlankIsSpace(s[0]);
    BlankIsSpace(s[|s| - 1]);
  }

  lemma {:induction false} StripBlanks(s: string)
    requires Blanks(s)
    ensures Strip(s) == ""
  {
    if s != "" {
      StripFront(s);
      StripBlanks(s[1..]);
    }
  }

  lemma {:induction false} StripAfter(core: string, after: string)
    requires core != "" && !Blank(core[0]) && !Blank(core[|core| - 1]) && Blanks(after)
    ensures Strip(core + after) == core
    decreases |after|
  {
    var s := core + after;
    if after == "" {
      BlankIsSpace(s[0]);
      BlankIsSpace(s[|s| - 1]);
    } else {
      StripBack(s);
      assert s[..|s| - 1] == core + after[..|after| - 1];
      StripAfter(core, after[..|after| - 1]);
    }
  }

  lemma {:induction false} StripText(before: string, core: string, after: string)
    requires Blanks(before) && Blanks(after) && (core != "" ==> !Blank(core[0]) && !Blank(core[|core| - 1]))
    ensures Strip(before + core + after) == core
    decreases |before|
  {
    var s := before + core + after;
    if core == "" {
      StripBlanks(s);
    } else if before == "" {
      assert s == core + after;
      StripAfter(core, after);
    } else {
      StripFront(s);
      assert s[1..] == before[1..] + core + after;
      StripText(before[1..], core, after);
    }
  }

  // ---------------------------------------------------------------- frames

  /** The frame is made of six finite numbers. */
  predicate Sound(number: string -> Number, fields: seq<Field>) {
    |fields| == 6 && forall k :: 0 <= k < 6 ==> number(fields[k].core).Finite?
  }

  predicate IsSample(number: string -> Number, fields: seq<Field>, s: Sample)
    requires Sound(number, fields)
  {
    && s.fx == number(fields[0].core).value && s.fy == number(fields[1].core).value && s.fz == number(fields[2].core).value
    && s.tx == number(fields[3].core).value && s.ty == number(fields[4].core).value && s.tz == number(fields[5].core).value
  }

  lemma PayloadOf(number: string -> Number, fields: seq<Field>)
    requires fields != [] && AllProper(fields)
    ensures var o := ParsePayload(number, Joined(fields));
      if Sound(number, fields) then o.Some? && IsSample(number, fields, o.value) else o.None?
  {
    SplitJoined(fields);
    TextsAt(fields, 0);
    var parts := Texts(fields);
    forall k | 0 <= k < |fields|
      ensures Strip(parts[k]) == fields[k].core
    {
      TextsAt(fields, k);
      StripText(fields[k].before, fields[k].core, fields[k].after);
    }
    if |fields| == 6 {
      var values := seq(6, k requires 0 <= k < 6 => number(Strip(parts[k])));
      assert forall k :: 0 <= k < 6 ==> values[k] == number(fields[k].core);
    }
  }

  /**
   * Fed to an empty parser, a frame of any number of fields, with any blanks around them, gives one sample when
   * they are six and each is a finite number: the forces are the first three in order and the torques the last
   * three. In every other case it gives none; and nothing is left over.
   */
  lemma FrameIsRead(number: string -> Number, limit: nat, fields: seq<Field>)
    requires fields != [] && AllProper(fields)
    ensures var fed := Feed(PayloadParser(number), limit, "", ['('] + Joined(fields) + [')']);
      && fed.rest == ""
      && if Sound(number, fields) then |fed.samples| == 1 && IsSample(number, fields, fed.samples[0])
         else fed.samples == []
  {
    var payload := Joined(fields);
    var text := ['('] + payload + [')'];
    var parse := PayloadParser(number);
    SplitJoined(fields);
    assert "" + text == text == (['('] + payload) + [')'] + "";
    assert (['('] + payload)[1..] == payload;
    CloseFrame(parse, ['('] + payload, "", text, payload);
    ScanNothing(parse, "");
    PayloadOf(number, fields);
  }

  // ---------------------------------------------------------------- every payload is one of these

  lemma MoreBefore(c: char, g: Field) returns (f: Field)
    requires Proper(g) && Blank(c)
    ensures Proper(f) && Text(f) == [c] + Text(g)
  {
    f := g.(before := [c] + g.before);
  }

  lemma MoreAfter(g: Field, c: char) returns (f: Field)
    requires Proper(g) && Blank(c)
    ensures Proper(f) && Text(f) == Text(g) + [c]
  {
    f := g.(after := g.after + [c]);
  }

  lemma {:induction false} Peeled(s: string) returns (f: Field)
    requires ',' !in s && ')' !in s
    ensures Proper(f) && Text(f) == s
  {
    hide Proper, Text;
    if s != "" && Blank(s[0]) {
      f := Peeled(s[1..]);
      f := MoreBefore(s[0], f);
    } else if s != "" && Blank(s[|s| - 1]) {
      f := Peeled(s[..|s| - 1]);
      f := MoreAfter(f, s[|s| - 1]);
    } else {
      f := Alone(s);
    }
  }

  lemma Alone(s: string) returns (f: Field)
    requires ',' !in s && ')' !in s
    requires s != "" ==> !Blank(s[0]) && !Blank(s[|s| - 1])
    ensures Proper(f) && Text(f) == s
  {
    f := Field("", s, "");
  }

  lemma OneField(f: Field)
    requires Proper(f)
    ensures AllProper([f]) && Joined([f]) == Text(f)
  {
    hide Proper, Text;
  }

  lemma FieldFirst(f: Field, more: seq<Field>)
    requires more != [] && Proper(f) && AllProper(more)
    ensures AllProper([f] + more) && Joined([f] + more) == Text(f) + [','] + Joined(more)
  {
    hide Proper, Text;
    assert ([f] + more)[1..] == more;
  }

  lemma CutAt(payload: string, i: nat) returns (first: string, more: string)
    requires i < |payload| && payload[i] == ',' && ',' !in payload[0..i] && ')' !in payload
    ensures payload == first + [','] + more && ',' !in first && ')' !in first && ')' !in more
    ensures |more| < |payload|
  {
    first, more := payload[0..i], payload[i + 1..];
  }

  /** Every payload is made of such fields, so `FrameIsRead` is about every frame there is. */
  lemma {:induction false} EveryPayload(payload: string) returns (fields: seq<Field>)
    requires ')' !in payload
    ensures fields != [] && AllProper(fields) && Joined(fields) == payload
    decreases |payload|
  {
    hide AllProper, Joined, Proper, Text;
    var i := Find(payload, ',', 0);
    if i < 0 {
      assert payload[0..] == payload;
      var f := Peeled(payload);
      OneField(f);
      fields := [f];
    } else {
      var first, more := CutAt(payload, i);
      var f := Peeled(first);
      fields := EveryPayload(more);
      FieldFirst(f, fields);
      fields := [f] + fields;
    }
  }

  // ---------------------------------------------------------------- what is kept of an unfinished text

  /** A text over the limit is cut to its last parenthesis, or dropped when that does not help. */
  lemma TrimMeans(limit: nat, before: string, open: string)
    requires '(' !in open
    ensures Trim(limit, before + ['('] + open) ==
            if |before| + 1 + |open| <= limit then before + ['('] + open else if 1 + |open| <= limit then ['('] + open else ""
    ensures Trim(limit, open) == if |open| <= limit then open else ""
  {
    var text := before + ['('] + open;
    LastIs(text, '(', |before|);
    assert text[|before|..] == ['('] + open;
  }

  lemma {:induction false} LastIs(s: string, c: char, i: nat)
    requires i < |s| && s[i] == c && c !in s[i + 1..]
    ensures FindLast(s, c) == i
  {
    var n := |s| - 1;
    if i < n {
      assert s[i + 1..] == s[..n][i + 1..] + [s[n]];
      LastIs(s[..n], c, i);
    }
  }
}
