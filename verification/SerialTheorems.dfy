/** What the serial receiver guarantees over all runs. */
module SerialTheorems {
  import opened CrcRegister
  import opened ModbusFrames
  import opened SerialStream

  /** Calls of the receiver, and requests to zero the sensor between them. */
  datatype Label = Zero | Read(chunk: seq<byte>)

  function Step(check: Check, s: State, l: Label): State {
    match l
    case Zero => s.(zeroFlag := true)
    case Read(chunk) => Listen(check, s, chunk)
  }

  function After(check: Check, run: seq<Label>): State {
    if run == [] then INITIAL_STATE else Step(check, After(check, run[..|run| - 1]), run[|run| - 1])
  }

  // ---------------------------------------------------------------- the buffer

  /** No frame can begin where sixteen bytes are there. */
  predicate NoFrame(buffer: seq<byte>) {
    forall j :: 0 <= j && j + FRAME <= |buffer| ==> !HeaderAt(buffer, j)
  }

  lemma SearchLeavesNoFrame(check: Check, s: State)
    ensures NoFrame(Search(check, s).buffer) && |Search(check, s).buffer| <= |s.buffer|
  {
    if |s.buffer| >= FRAME {
      var k := LastHeader(s.buffer, |s.buffer| - FRAME);
      var rest := Search(check, s).buffer;
      if k >= 0 {
        forall j | 0 <= j && j + FRAME <= |rest|
          ensures !HeaderAt(rest, j)
        {
          assert rest[j] == s.buffer[k + FRAME + j] && rest[j + 1] == s.buffer[k + FRAME + j + 1];
          assert !HeaderAt(s.buffer, k + FRAME + j);
        }
      }
    }
  }

  lemma ListenLeavesNoFrame(check: Check, s: State, chunk: seq<byte>)
    requires NoFrame(s.buffer) && |s.buffer| <= BUFFER_SIZE
    ensures NoFrame(Listen(check, s, chunk).buffer) && |Listen(check, s, chunk).buffer| <= BUFFER_SIZE
  {
    if chunk != [] {
      var h := Hear(Tick(s), chunk);
      SearchLeavesNoFrame(check, h.(buffer := Store(h.buffer, chunk)));
    }
  }

  /** Whatever comes in, the buffer stays within its size and holds no place where a whole frame could begin. */
  lemma {:induction false} BufferHoldsNoFrame(check: Check, run: seq<Label>)
    ensures NoFrame(After(check, run).buffer) && |After(check, run).buffer| <= BUFFER_SIZE
  {
    if run != [] {
      BufferHoldsNoFrame(check, run[..|run| - 1]);
      if run[|run| - 1].Read? {
        ListenLeavesNoFrame(check, After(check, run[..|run| - 1]), run[|run| - 1].chunk);
      }
    }
  }

  // ---------------------------------------------------------------- the watchdogs

  /** A byte arrived in one of the last `n` calls. */
  predicate HeardWithin(run: seq<Label>, n: nat) {
    run != [] && n > 0 &&
    match run[|run| - 1]
    case Zero => HeardWithin(run[..|run| - 1], n)
    case Read(chunk) => chunk != [] || HeardWithin(run[..|run| - 1], n - 1)
  }

  predicate Found(check: Check, buffer: seq<byte>) {
    |buffer| >= FRAME &&
    var k := LastHeader(buffer, |buffer| - FRAME);
    k >= 0 && check(buffer[k..k + FRAME])
  }

  /** The call with this chunk decodes a frame whose checksum fits. */
  predicate Decodes(check: Check, s: State, chunk: seq<byte>) {
    chunk != [] && Found(check, Store(s.buffer, chunk))
  }

  predicate DecodedWithin(check: Check, run: seq<Label>, n: nat) {
    run != [] && n > 0 &&
    match run[|run| - 1]
    case Zero => DecodedWithin(check, run[..|run| - 1], n)
    case Read(chunk) => Decodes(check, After(check, run[..|run| - 1]), chunk) || DecodedWithin(check, run[..|run| - 1], n - 1)
  }

  /** While something is detected, the timer counts the calls since the last byte. */
  ghost predicate Detecting(run: seq<Label>, s: State) {
    if s.detected then s.detectionTimer <= DETECTION_LIMIT + 1 && forall n: nat :: HeardWithin(run, n) <==> s.detectionTimer < n
    else forall n: nat :: n <= DETECTION_LIMIT + 2 ==> !HeardWithin(run, n)
  }

  ghost predicate Validating(check: Check, run: seq<Label>, s: State) {
    if s.valid then s.validityTimer <= VALIDITY_LIMIT + 1 && forall n: nat :: DecodedWithin(check, run, n) <==> s.validityTimer < n
    else forall n: nat :: n <= VALIDITY_LIMIT + 2 ==> !DecodedWithin(check, run, n)
  }

  lemma SearchTimers(check: Check, s: State)
    ensures var u := Search(check, s);
      && u.detected == s.detected && u.detectionTimer == s.detectionTimer
      && u.valid == (Found(check, s.buffer) || s.valid)
      && u.validityTimer == (if Found(check, s.buffer) then 0 else s.validityTimer)
  {
  }

  lemma ListenTimers(check: Check, s: State, chunk: seq<byte>)
    ensures var u := Listen(check, s, chunk); var t := Tick(s);
      && u.detected == (chunk != [] || t.detected)
      && u.detectionTimer == (if chunk != [] then 0 else t.detectionTimer)
      && u.valid == (Decodes(check, s, chunk) || t.valid)
      && u.validityTimer == (if Decodes(check, s, chunk) then 0 else t.validityTimer)
  {
    if chunk != [] {
      var h := Hear(Tick(s), chunk);
      SearchTimers(check, h.(buffer := Store(h.buffer, chunk)));
    }
  }

  lemma {:induction false} AfterDetecting(check: Check, run: seq<Label>)
    ensures Detecting(run, After(check, run))
  {
    if run != [] {
      var before := run[..|run| - 1];
      var s := After(check, before);
      AfterDetecting(check, before);
      match run[|run| - 1]
      case Zero =>
        assert forall n: nat :: HeardWithin(run, n) <==> HeardWithin(before, n);
      case Read(chunk) =>
        ListenTimers(check, s, chunk);
        assert forall n: nat :: HeardWithin(run, n) <==> n > 0 && (chunk != [] || HeardWithin(before, n - 1));
    }
  }

  lemma {:induction false} AfterValidating(check: Check, run: seq<Label>)
    ensures Validating(check, run, After(check, run))
  {
    if run != [] {
      var before := run[..|run| - 1];
      var s := After(check, before);
      AfterValidating(check, before);
      match run[|run| - 1]
      case Zero =>
        assert forall n: nat :: DecodedWithin(check, run, n) <==> DecodedWithin(check, before, n);
      case Read(chunk) =>
        ListenTimers(check, s, chunk);
        assert forall n: nat :: DecodedWithin(check, run, n) <==>
          n > 0 && (Decodes(check, s, chunk) || DecodedWithin(check, before, n - 1));
    }
  }

  /**
   * The stream counts as detected exactly when a byte arrived within the last 22 calls, and as valid
   * exactly when a good frame was decoded within the last 42.
   */
  lemma Watchdogs(check: Check, run: seq<Label>)
    ensures After(check, run).detected <==> HeardWithin(run, 22)
    ensures After(check, run).valid <==> DecodedWithin(check, run, 42)
  {
    AfterDetecting(check, run);
    AfterValidating(check, run);
  }

  // ---------------------------------------------------------------- a good stream

  /** A stream of good frames from the beginning on, with the header bytes only where frames begin. */
  ghost predicate GoodStream(check: Check, stream: seq<byte>) {
    && (forall p :: 0 <= p && p + 1 < |stream| && HeaderAt(stream, p) ==> p % FRAME == 0)
    && (forall q :: 0 <= q && FRAME * q + FRAME <= |stream| ==> GoodFrame(check, stream, q))
  }

  predicate GoodFrame(check: Check, stream: seq<byte>, q: nat)
    requires FRAME * q + FRAME <= |stream|
  {
    HeaderAt(stream, FRAME * q) && check(stream[FRAME * q..FRAME * q + FRAME])
  }

  function Bytes(run: seq<Label>): seq<byte> {
    if run == [] then []
    else Bytes(run[..|run| - 1]) + (if run[|run| - 1].Read? then run[|run| - 1].chunk else [])
  }

  predicate SmallChunks(run: seq<Label>) {
    forall k :: 0 <= k < |run| && run[k].Read? ==> |run[k].chunk| <= BUFFER_SIZE - (FRAME - 1)
  }

  /** The receiver holds what follows the last whole frame, and has published that frame. */
  predicate Aligned(s: State, stream: seq<byte>) {
    var q := |stream| / FRAME;
    && s.buffer == stream[FRAME * q..]
    && (q > 0 ==> s.data == ValuesOf(stream[FRAME * (q - 1)..FRAME * q]))
  }

  lemma BetweenFrames(from: nat, j: nat, m: nat)
    requires FRAME * m < j < FRAME * m + FRAME
    ensures (FRAME * from + j) % FRAME != 0
  {
  }

  /** In a good stream the last place where a whole frame begins is that of the last whole frame. */
  lemma LastFrame(check: Check, stream: seq<byte>, from: nat, buffer: seq<byte>, q: nat)
    requires GoodStream(check, stream) && FRAME * from <= |stream| && buffer == stream[FRAME * from..]
    requires |buffer| >= FRAME && q == |stream| / FRAME
    ensures from < q && LastHeader(buffer, |buffer| - FRAME) == FRAME * (q - 1 - from)
  {
    var m := q - 1 - from;
    assert GoodFrame(check, stream, q - 1);
    assert HeaderAt(buffer, FRAME * m);
    forall j | FRAME * m < j <= |buffer| - FRAME
      ensures !HeaderAt(buffer, j)
    {
      BetweenFrames(from, j, m);
      assert !HeaderAt(stream, FRAME * from + j);
    }
  }

  lemma SliceAfter(stream: seq<byte>, c: seq<byte>, from: nat, end: nat)
    requires from <= end <= |stream|
    ensures (stream + c)[from..end] == stream[from..end] && (stream + c)[from..] == stream[from..] + c
  {
  }

  /** A slice of a slice. */
  lemma SliceOfTail(stream: seq<byte>, a: nat, i: nat, j: nat)
    requires a <= |stream| && i <= j && a + j <= |stream|
    ensures stream[a..][i..j] == stream[a + i..a + j] && stream[a..][j..] == stream[a + j..]
  {
  }

  lemma SearchTakes(check: Check, s: State, k: nat, frame: seq<byte>, rest: seq<byte>)
    requires |s.buffer| >= FRAME && LastHeader(s.buffer, |s.buffer| - FRAME) == k
    requires frame == s.buffer[k..k + FRAME] && rest == s.buffer[k + FRAME..] && check(frame)
    ensures Search(check, s).buffer == rest && |frame| == FRAME && Search(check, s).data == ValuesOf(frame)
  {
  }

  lemma SearchedFrame(check: Check, s: State, stream: seq<byte>, from: nat, q: nat)
    requires GoodStream(check, stream) && FRAME * from <= |stream| && s.buffer == stream[FRAME * from..]
    requires |s.buffer| >= FRAME && q == |stream| / FRAME
    ensures q > 0 && Search(check, s).buffer == stream[FRAME * q..]
    ensures Search(check, s).data == ValuesOf(stream[FRAME * (q - 1)..FRAME * q])
  {
    LastFrame(check, stream, from, s.buffer, q);
    assert GoodFrame(check, stream, q - 1);
    var k := FRAME * (q - 1 - from);
    SliceOfTail(stream, FRAME * from, k, k + FRAME);
    SearchTakes(check, s, k, stream[FRAME * (q - 1)..FRAME * q], stream[FRAME * q..]);
  }

  lemma SearchAligned(check: Check, s: State, stream: seq<byte>, from: nat)
    requires GoodStream(check, stream) && FRAME * from <= |stream| && s.buffer == stream[FRAME * from..]
    requires |stream| / FRAME == from && from > 0 ==> s.data == ValuesOf(stream[FRAME * (from - 1)..FRAME * from])
    ensures Aligned(Search(check, s), stream)
  {
    if |s.buffer| >= FRAME {
      SearchedFrame(check, s, stream, from, |stream| / FRAME);
    } else {
      assert |stream| / FRAME == from;
    }
  }

  lemma ListenAligned(check: Check, s: State, stream: seq<byte>, c: seq<byte>)
    requires Aligned(s, stream) && GoodStream(check, stream + c) && |c| <= BUFFER_SIZE - (FRAME - 1)
    ensures Aligned(Listen(check, s, c), stream + c)
  {
    var q := |stream| / FRAME;
    if c == [] {
      assert stream + c == stream;
    } else {
      var t := Hear(Tick(s), c).(buffer := Store(s.buffer, c));
      StoreFits(s.buffer, stream, c, q);
      PublishedKept(s.data, stream, c, q);
      ListenSearches(check, s, c, t);
      SearchAligned(check, t, stream + c, q);
    }
  }

  lemma PublishedKept(data: seq<real>, stream: seq<byte>, c: seq<byte>, q: nat)
    requires FRAME * q <= |stream| && (q > 0 ==> data == ValuesOf(stream[FRAME * (q - 1)..FRAME * q]))
    ensures q > 0 ==> data == ValuesOf((stream + c)[FRAME * (q - 1)..FRAME * q])
  {
    if q > 0 {
      SliceAfter(stream, c, FRAME * (q - 1), FRAME * q);
    }
  }

  lemma StoreFits(buffer: seq<byte>, stream: seq<byte>, c: seq<byte>, q: nat)
    requires q == |stream| / FRAME && buffer == stream[FRAME * q..] && |c| <= BUFFER_SIZE - (FRAME - 1)
    ensures Store(buffer, c) == (stream + c)[FRAME * q..]
  {
  }

  lemma ListenSearches(check: Check, s: State, c: seq<byte>, t: State)
    requires c != [] && t == Hear(Tick(s), c).(buffer := Store(s.buffer, c))
    ensures Listen(check, s, c) == Search(check, t) && t.data == s.data
  {
  }

  lemma GoodBeginning(check: Check, stream: seq<byte>, c: seq<byte>)
    requires GoodStream(check, stream + c)
    ensures GoodStream(check, stream)
  {
    forall p | 0 <= p && p + 1 < |stream| && HeaderAt(stream, p)
      ensures p % FRAME == 0
    {
      assert HeaderAt(stream + c, p);
    }
    forall q | 0 <= q && FRAME * q + FRAME <= |stream|
      ensures GoodFrame(check, stream, q)
    {
      assert GoodFrame(check, stream + c, q);
      SliceAfter(stream, c, FRAME * q, FRAME * q + FRAME);
    }
  }

  /**
   * A stream of good frames, read in chunks of at most 1009 bytes however it is cut: every call leaves
   * exactly the bytes after the last whole frame, and the values published are those of that frame.
   */
  lemma {:induction false} GoodStreamIsDecoded(check: Check, run: seq<Label>)
    requires GoodStream(check, Bytes(run)) && SmallChunks(run)
    ensures Aligned(After(check, run), Bytes(run))
  {
    if run != [] {
      var before := run[..|run| - 1];
      var s := After(check, before);
      match run[|run| - 1]
      case Zero =>
        assert Bytes(run) == Bytes(before) + [];
        assert Bytes(before) + [] == Bytes(before);
        GoodStreamIsDecoded(check, before);
      case Read(chunk) =>
        GoodBeginning(check, Bytes(before), chunk);
        GoodStreamIsDecoded(check, before);
        ListenAligned(check, s, Bytes(before), chunk);
    }
  }
}
