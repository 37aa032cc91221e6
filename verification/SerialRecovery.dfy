/** The serial receiver finds its way back into a good stream after anything. */
module SerialRecovery {
  import opened CrcRegister
  import opened ModbusFrames
  import opened SerialStream
  import opened SerialTheorems

  /** The receiver is in step from this frame on at the latest: 64 frames for every offset in a frame at which it may begin. */
  const LATEST := 64 * FRAME

  /** Calls from any state. */
  function Continue(check: Check, s: State, run: seq<Label>): State {
    if run == [] then s else Step(check, Continue(check, s, run[..|run| - 1]), run[|run| - 1])
  }

  /**
   * Where the receiver is in a good stream: still behind other bytes with the beginning of the first frame,
   * inside a frame it cannot decode, or in step from some frame on.
   */
  datatype Place = Behind(junk: seq<byte>) | Skipping(frame: nat, offset: nat) | InStep(frame: nat)

  /** In a frame, at an offset that grows with every overflow: with each, at most 64 frames are lost. */
  predicate Possible(frame: nat, offset: nat) {
    0 < offset < FRAME && frame < 64 * offset
  }

  /** The place of the receiver when `n` bytes of the stream have come. */
  ghost predicate At(s: State, stream: seq<byte>, n: nat, w: Place)
    requires n <= |stream|
  {
    match w
    case Behind(junk) => s.buffer == junk + stream[..n] && n < FRAME
    case Skipping(a, o) =>
      Possible(a, o) && FRAME * a + o <= n < FRAME * a + 2 * FRAME && s.buffer == stream[FRAME * a + o..n]
    case InStep(q) => q <= LATEST && Decoded(s, stream, n, q)
  }

  /** The receiver holds what follows the last whole frame, and has published that frame if it is not before frame `q`. */
  ghost predicate Decoded(s: State, stream: seq<byte>, n: nat, q: nat)
    requires n <= |stream|
  {
    var last := n / FRAME;
    && q <= last && s.buffer == stream[FRAME * last..n]
    && (q < last ==> s.data == ValuesOf(stream[FRAME * (last - 1)..FRAME * last]))
  }

  // ---------------------------------------------------------------- parts of a good stream

  lemma Middle(stream: seq<byte>, p: nat, n: nat, i: nat, j: nat)
    requires p <= n <= |stream| && i <= j && p + j <= n
    ensures stream[p..n][i..j] == stream[p + i..p + j]
  {
    var part := stream[p..n];
    assert forall k :: i <= k < j ==> part[k] == stream[p + k];
  }

  /** In step from a frame on is to be aligned with the stream from there on. */
  lemma DecodedIsAligned(s: State, stream: seq<byte>, n: nat, q: nat)
    requires FRAME * q <= n <= |stream|
    ensures Decoded(s, stream, n, q) <==> Aligned(s, stream[FRAME * q..n])
  {
    var part := stream[FRAME * q..n];
    var k := |part| / FRAME;
    assert n / FRAME == q + k && part[FRAME * k..] == part[FRAME * k..|part|];
    Middle(stream, FRAME * q, n, FRAME * k, |part|);
    if k > 0 {
      Middle(stream, FRAME * q, n, FRAME * (k - 1), FRAME * k);
    }
  }

  lemma SameOffset(a: nat, i: nat)
    ensures (FRAME * a + i) % FRAME == i % FRAME
  {
  }

  /** A good stream is good from every frame on, and to anywhere. */
  lemma GoodMiddle(check: Check, stream: seq<byte>, a: nat, n: nat)
    requires GoodStream(check, stream) && FRAME * a <= n <= |stream|
    ensures GoodStream(check, stream[FRAME * a..n])
  {
    var p := FRAME * a;
    var part := stream[p..n];
    forall i | 0 <= i && i + 1 < |part| && HeaderAt(part, i)
      ensures i % FRAME == 0
    {
      assert HeaderAt(stream, p + i);
      SameOffset(a, i);
    }
    forall q | 0 <= q && FRAME * q + FRAME <= |part|
      ensures GoodFrame(check, part, q)
    {
      assert GoodFrame(check, stream, a + q) && FRAME * (a + q) == p + FRAME * q;
      Middle(stream, p, n, FRAME * q, FRAME * q + FRAME);
    }
  }

  // ---------------------------------------------------------------- the search

  lemma {:induction false} LastHeaderIs(buffer: seq<byte>, i: int, k: nat)
    requires k <= i && i + FRAME <= |buffer| && HeaderAt(buffer, k)
    requires forall j :: k < j <= i ==> !HeaderAt(buffer, j)
    ensures LastHeader(buffer, i) == k
    decreases i
  {
    if k < i {
      LastHeaderIs(buffer, i - 1, k);
    }
  }

  /** The stream from `p` to `n` is in the buffer, behind other bytes. */
  predicate Holds(buffer: seq<byte>, before: nat, stream: seq<byte>, p: nat, n: nat) {
    p <= n <= |stream| && before + (n - p) == |buffer| && buffer[before..] == stream[p..n]
  }

  lemma SameHeader(buffer: seq<byte>, before: nat, stream: seq<byte>, p: nat, n: nat, i: nat)
    requires Holds(buffer, before, stream, p, n) && p <= i && i + 1 < n
    ensures HeaderAt(buffer, before + (i - p)) <==> HeaderAt(stream, i)
  {
    assert buffer[before + (i - p)] == buffer[before..][i - p] == stream[p..n][i - p];
    assert buffer[before + (i - p) + 1] == buffer[before..][i - p + 1] == stream[p..n][i - p + 1];
  }

  /** With a whole frame of the stream in the buffer, the last one is found, whatever is before it. */
  lemma LastInStream(check: Check, buffer: seq<byte>, before: nat, stream: seq<byte>, p: nat, n: nat, q: nat)
    requires GoodStream(check, stream) && Holds(buffer, before, stream, p, n) && p <= FRAME * q && FRAME * q + FRAME <= n < FRAME * q + 2 * FRAME
    ensures LastHeader(buffer, |buffer| - FRAME) == before + (FRAME * q - p)
  {
    var k := before + (FRAME * q - p);
    assert GoodFrame(check, stream, q);
    SameHeader(buffer, before, stream, p, n, FRAME * q);
    forall j | k < j <= |buffer| - FRAME
      ensures !HeaderAt(buffer, j)
    {
      var i := p + (j - before);
      SameHeader(buffer, before, stream, p, n, i);
      Between(q, i);
      assert !HeaderAt(stream, i);
    }
    LastHeaderIs(buffer, |buffer| - FRAME, k);
  }

  lemma SearchInStream(check: Check, s: State, before: nat, stream: seq<byte>, p: nat, n: nat, q: nat)
    requires GoodStream(check, stream) && Holds(s.buffer, before, stream, p, n) && p <= FRAME * q && FRAME * q + FRAME <= n < FRAME * q + 2 * FRAME
    ensures Decoded(Search(check, s), stream, n, q)
  {
    var frame, rest := stream[FRAME * q..FRAME * q + FRAME], stream[FRAME * q + FRAME..n];
    LastInStream(check, s.buffer, before, stream, p, n, q);
    Pieces(s.buffer, before, stream, p, n, FRAME * q);
    assert GoodFrame(check, stream, q);
    SearchTakes(check, s, before + (FRAME * q - p), frame, rest);
    assert n / FRAME == q + 1;
  }

  lemma Between(q: nat, i: nat)
    requires FRAME * q < i < FRAME * q + FRAME
    ensures i % FRAME != 0
  {
  }

  /** The frame at `a` of the stream, and what follows it, in the buffer. */
  lemma Pieces(buffer: seq<byte>, before: nat, stream: seq<byte>, p: nat, n: nat, a: nat)
    requires Holds(buffer, before, stream, p, n) && p <= a && a + FRAME <= n
    ensures var k := before + (a - p);
      buffer[k..k + FRAME] == stream[a..a + FRAME] && buffer[k + FRAME..] == stream[a + FRAME..n]
  {
    var part := buffer[before..];
    SliceOfTail(buffer, before, a - p, a - p + FRAME);
    Middle(stream, p, n, a - p, a - p + FRAME);
    Middle(stream, p, n, a - p + FRAME, n - p);
    assert part[a - p + FRAME..] == part[a - p + FRAME..n - p];
  }

  lemma IsBehind(t: State, junk: seq<byte>, stream: seq<byte>, n: nat)
    requires n <= |stream| && n < FRAME && t.buffer == junk + stream[..n]
    ensures At(t, stream, n, Behind(junk))
  {
  }

  lemma IsSkipping(t: State, stream: seq<byte>, n: nat, a: nat, o: nat)
    requires Possible(a, o) && FRAME * a + o <= n < FRAME * a + 2 * FRAME && n <= |stream| && t.buffer == stream[FRAME * a + o..n]
    ensures At(t, stream, n, Skipping(a, o))
  {
  }

  /** What a search leaves, with the place where it found a possible frame. */
  lemma SearchLeaves(check: Check, s: State) returns (k: int)
    ensures k >= 0 ==> k + FRAME <= |s.buffer| && Search(check, s).buffer == s.buffer[k + FRAME..]
    ensures k < 0 ==> Search(check, s) == s
  {
    k := if |s.buffer| < FRAME then -1 else LastHeader(s.buffer, |s.buffer| - FRAME);
  }

  /** A search before a whole frame has come. */
  lemma SearchBehind(check: Check, s: State, t: State, junk: seq<byte>, stream: seq<byte>, n: nat) returns (w: Place)
    requires n <= |stream| && s.buffer == junk + stream[..n] && n < FRAME && t == Search(check, s)
    ensures At(t, stream, n, w)
  {
    var k := SearchLeaves(check, s);
    if k < 0 {
      w := Behind(junk);
      IsBehind(t, junk, stream, n);
    } else {
      DropJunk(s.buffer, junk, stream, n, k + FRAME);
      if k + FRAME <= |junk| {
        w := Behind(junk[k + FRAME..]);
        IsBehind(t, junk[k + FRAME..], stream, n);
      } else {
        w := Skipping(0, k + FRAME - |junk|);
        IsSkipping(t, stream, n, 0, k + FRAME - |junk|);
      }
    }
  }

  /** Without its first bytes the buffer holds less of the other bytes, or only part of the stream. */
  lemma DropJunk(buffer: seq<byte>, junk: seq<byte>, stream: seq<byte>, n: nat, d: nat)
    requires n <= |stream| && buffer == junk + stream[..n] && d <= |buffer|
    ensures d <= |junk| ==> buffer[d..] == junk[d..] + stream[..n]
    ensures d >= |junk| ==> buffer[d..] == stream[d - |junk|..n]
  {
    var rest := buffer[d..];
    assert forall i :: 0 <= i < |rest| ==> rest[i] == buffer[d + i];
  }

  /** A search in the middle of the stream that still sees no whole frame. */
  lemma SearchSkipping(check: Check, s: State, stream: seq<byte>, a: nat, o: nat, n: nat)
    requires GoodStream(check, stream) && FRAME * a + o <= n <= |stream| && s.buffer == stream[FRAME * a + o..n]
    requires 0 < o < FRAME && n < FRAME * a + 2 * FRAME
    ensures Search(check, s) == s
  {
    if |s.buffer| >= FRAME {
      var k := LastHeader(s.buffer, |s.buffer| - FRAME);
      if k >= 0 {
        assert HeaderAt(stream, FRAME * a + o + k);
        Between(a, FRAME * a + o + k);
      }
    }
  }

  lemma SearchFrom(check: Check, s: State, stream: seq<byte>, a: nat, o: nat, n: nat) returns (w: Place)
    requires GoodStream(check, stream) && FRAME * a + o <= n <= |stream| && s.buffer == stream[FRAME * a + o..n]
    requires Possible(a, o) && |s.buffer| <= BUFFER_SIZE
    ensures At(Search(check, s), stream, n, w)
  {
    if n < FRAME * a + 2 * FRAME {
      SearchSkipping(check, s, stream, a, o, n);
      w := Skipping(a, o);
    } else {
      var q := n / FRAME - 1;
      assert s.buffer[0..] == s.buffer;
      SearchInStream(check, s, 0, stream, FRAME * a + o, n, q);
      w := InStep(q);
    }
  }

  lemma SearchJunk(check: Check, s: State, junk: seq<byte>, stream: seq<byte>, n: nat) returns (w: Place)
    requires GoodStream(check, stream) && n <= |stream| && s.buffer == junk + stream[..n] && |s.buffer| <= BUFFER_SIZE
    ensures At(Search(check, s), stream, n, w)
  {
    if n < FRAME {
      w := SearchBehind(check, s, Search(check, s), junk, stream, n);
    } else {
      var q := n / FRAME - 1;
      assert s.buffer[|junk|..] == stream[0..n];
      SearchInStream(check, s, |junk|, stream, 0, n, q);
      w := InStep(q);
    }
  }

  // ---------------------------------------------------------------- an overflow

  /** Where a call leaves the receiver that has emptied its buffer. */
  lemma Emptied(s: State, stream: seq<byte>, n: nat, a: nat, o: nat) returns (w: Place)
    requires n <= |stream| && s.buffer == [] && n == FRAME * a + o
    requires if o == 0 then a <= LATEST else Possible(a, o)
    ensures At(s, stream, n, w)
  {
    assert stream[n..n] == [];
    w := if o == 0 then InStep(a) else Skipping(a, o);
  }

  lemma Parts(n: nat) returns (a: nat, o: nat)
    ensures n == FRAME * a + o && o < FRAME
  {
    a, o := n / FRAME, n % FRAME;
  }

  /** The chunk that overflows a buffer of at most 30 bytes ends later in a frame than those bytes began. */
  lemma OverflowAdvances(a: nat, o: nat, n: nat, c: nat) returns (a': nat, o': nat)
    requires Possible(a, o) && FRAME * a + o <= n < FRAME * a + 2 * FRAME
    requires n - (FRAME * a + o) + c > BUFFER_SIZE && c <= BUFFER_SIZE - (FRAME - 1)
    ensures n + c == FRAME * a' + o' && if o' == 0 then a' <= LATEST else Possible(a', o') && o' > o
  {
    a', o' := Parts(n + c);
    assert FRAME * (a + 64) + o < n + c <= FRAME * (a + 65);
    assert a' == a + 64 || (a' == a + 65 && o' == 0);
  }

  // ---------------------------------------------------------------- one call

  /** A call is a search with the chunk stored, unless nothing came. */
  lemma ListenIs(check: Check, s: State, c: seq<byte>, t: State) returns (u: State)
    requires c != [] && t == Listen(check, s, c)
    ensures u.buffer == Store(s.buffer, c) && t == Search(check, u)
  {
    u := Hear(Tick(s), c).(buffer := Store(s.buffer, c));
  }

  lemma ListenNothing(check: Check, s: State, t: State)
    requires t == Listen(check, s, [])
    ensures t.buffer == s.buffer && t.data == s.data
  {
  }

  lemma SearchEmpty(check: Check, s: State)
    requires s.buffer == []
    ensures Search(check, s) == s
  {
  }

  /** What a place says is about the buffer and the values alone. */
  lemma AtSame(s: State, t: State, stream: seq<byte>, n: nat, w: Place)
    requires n <= |stream| && At(s, stream, n, w) && t.buffer == s.buffer && t.data == s.data
    ensures At(t, stream, n, w)
  {
  }

  /** The chunk does not fit: at most the first `n` bytes of the stream are lost. */
  lemma Overflows(check: Check, u: State, stream: seq<byte>, n: nat) returns (w: Place)
    requires u.buffer == [] && n <= |stream| && n <= BUFFER_SIZE
    ensures At(Search(check, u), stream, n, w)
  {
    SearchEmpty(check, u);
    var a, o := Parts(n);
    w := Emptied(u, stream, n, a, o);
  }

  lemma JunkMore(buffer: seq<byte>, g: seq<byte>, part: seq<byte>)
    ensures buffer + (g + part) == buffer + g + part
  {
  }

  /** The call in which the first bytes of the stream come, behind other bytes of the same chunk. */
  lemma FirstBytes(check: Check, s: State, g: seq<byte>, stream: seq<byte>, n: nat, c: seq<byte>, t: State) returns (w: Place)
    requires GoodStream(check, stream) && n <= |stream| && |s.buffer| <= BUFFER_SIZE
    requires g != [] && c == g + stream[..n] && |c| <= BUFFER_SIZE - (FRAME - 1) && t == Listen(check, s, c)
    ensures At(t, stream, n, w)
  {
    var u := ListenIs(check, s, c, t);
    if |s.buffer| + |c| <= BUFFER_SIZE {
      JunkMore(s.buffer, g, stream[..n]);
      w := SearchJunk(check, u, s.buffer + g, stream, n);
    } else {
      w := Overflows(check, u, stream, n);
    }
  }

  /** The bytes of the stream from `n` to `n'`, in one chunk. */
  predicate Part(c: seq<byte>, stream: seq<byte>, n: nat, n': nat) {
    n < n' <= |stream| && n' - n <= BUFFER_SIZE - (FRAME - 1) && c == stream[n..n']
  }

  lemma MoreBehind(check: Check, s: State, junk: seq<byte>, stream: seq<byte>, n: nat, n': nat, c: seq<byte>, t: State) returns (w: Place)
    requires GoodStream(check, stream) && Part(c, stream, n, n') && t == Listen(check, s, c)
    requires n < FRAME && s.buffer == junk + stream[..n]
    ensures At(t, stream, n', w)
  {
    var u := ListenIs(check, s, c, t);
    if |s.buffer| + |c| <= BUFFER_SIZE {
      BehindMore(s.buffer, junk, stream, n, n');
      w := SearchJunk(check, u, junk, stream, n');
    } else {
      w := Overflows(check, u, stream, n');
    }
  }

  lemma BehindMore(buffer: seq<byte>, junk: seq<byte>, stream: seq<byte>, n: nat, n': nat)
    requires n <= n' <= |stream| && buffer == junk + stream[..n]
    ensures buffer + stream[n..n'] == junk + stream[..n']
  {
    assert stream[..n] + stream[n..n'] == stream[..n'];
  }

  lemma SliceMore(stream: seq<byte>, p: nat, n: nat, n': nat)
    requires p <= n <= n' <= |stream|
    ensures stream[p..n] + stream[n..n'] == stream[p..n']
  {
  }

  lemma SkippingFits(check: Check, u: State, buffer: seq<byte>, c: seq<byte>, a: nat, o: nat, stream: seq<byte>, n: nat, n': nat) returns (w: Place)
    requires GoodStream(check, stream) && Possible(a, o) && FRAME * a + o <= n <= n' <= |stream|
    requires buffer == stream[FRAME * a + o..n] && c == stream[n..n']
    requires u.buffer == buffer + c && |u.buffer| <= BUFFER_SIZE
    ensures At(Search(check, u), stream, n', w)
  {
    SliceMore(stream, FRAME * a + o, n, n');
    w := SearchFrom(check, u, stream, a, o, n');
  }

  lemma SkippingOverflows(check: Check, u: State, a: nat, o: nat, stream: seq<byte>, n: nat, n': nat) returns (w: Place)
    requires u.buffer == [] && n <= n' <= |stream| && n' - n <= BUFFER_SIZE - (FRAME - 1)
    requires Possible(a, o) && FRAME * a + o <= n < FRAME * a + 2 * FRAME && n' - (FRAME * a + o) > BUFFER_SIZE
    ensures At(Search(check, u), stream, n', w)
  {
    SearchEmpty(check, u);
    var a', o' := OverflowAdvances(a, o, n, n' - n);
    w := Emptied(u, stream, n', a', o');
  }

  lemma MoreSkipping(check: Check, s: State, a: nat, o: nat, stream: seq<byte>, n: nat, n': nat, c: seq<byte>, t: State) returns (w: Place)
    requires GoodStream(check, stream) && Part(c, stream, n, n') && t == Listen(check, s, c)
    requires At(s, stream, n, Skipping(a, o))
    ensures At(t, stream, n', w)
  {
    var u := ListenIs(check, s, c, t);
    if |s.buffer| + |c| <= BUFFER_SIZE {
      w := SkippingFits(check, u, s.buffer, c, a, o, stream, n, n');
    } else {
      w := SkippingOverflows(check, u, a, o, stream, n, n');
    }
  }

  lemma MoreInStep(check: Check, s: State, q: nat, stream: seq<byte>, n: nat, n': nat, c: seq<byte>, t: State)
    requires GoodStream(check, stream) && Part(c, stream, n, n') && t == Listen(check, s, c)
    requires At(s, stream, n, InStep(q))
    ensures At(t, stream, n', InStep(q))
  {
    GoodMiddle(check, stream, q, n');
    SliceMore(stream, FRAME * q, n, n');
    DecodedIsAligned(s, stream, n, q);
    ListenAligned(check, s, stream[FRAME * q..n], c);
    DecodedIsAligned(t, stream, n', q);
  }

  lemma MoreBytes(check: Check, s: State, stream: seq<byte>, n: nat, n': nat, c: seq<byte>, t: State, w: Place) returns (w': Place)
    requires GoodStream(check, stream) && Part(c, stream, n, n') && t == Listen(check, s, c)
    requires At(s, stream, n, w)
    ensures At(t, stream, n', w')
  {
    match w
    case Behind(junk) => w' := MoreBehind(check, s, junk, stream, n, n', c, t);
    case Skipping(a, o) => w' := MoreSkipping(check, s, a, o, stream, n, n', c, t);
    case InStep(q) => MoreInStep(check, s, q, stream, n, n', c, t); w' := w;
  }

  // ---------------------------------------------------------------- runs

  lemma SmallBuffer(check: Check, s: State, c: seq<byte>, t: State)
    requires |s.buffer| <= BUFFER_SIZE && t == Listen(check, s, c)
    ensures |t.buffer| <= BUFFER_SIZE
  {
    if c != [] {
      var u := ListenIs(check, s, c, t);
      SearchLeavesNoFrame(check, u);
    }
  }

  /** When `n` bytes of the stream have come, the receiver is at the place; a negative number of them are bytes still missing before it. */
  ghost predicate Placed(s: State, stream: seq<byte>, n: int, w: Place)
    requires n <= |stream|
  {
    |s.buffer| <= BUFFER_SIZE && (n >= 0 ==> At(s, stream, n, w))
  }

  /** What a chunk brings: nothing, only other bytes, the first bytes of the stream behind others, or further ones. */
  datatype Piece = Nothing | Early | First(g: seq<byte>) | Further

  predicate IsPiece(c: seq<byte>, stream: seq<byte>, n: int, n': int, x: Piece)
    requires n <= n' <= |stream|
  {
    match x
    case Nothing => c == [] && n' == n
    case Early => n' < 0
    case First(g) => n < 0 <= n' && g != [] && c == g + stream[..n']
    case Further => n >= 0 && Part(c, stream, n, n')
  }

  lemma PieceOf(c: seq<byte>, garbage: seq<byte>, stream: seq<byte>, m: nat) returns (x: Piece)
    requires m + |c| <= |garbage| + |stream| && c == (garbage + stream)[m..m + |c|] && |c| <= BUFFER_SIZE - (FRAME - 1)
    ensures IsPiece(c, stream, m - |garbage|, m + |c| - |garbage|, x)
  {
    var g := |garbage|;
    x := if c == [] then Nothing else if m + |c| < g then Early else if m < g then First(garbage[m..]) else Further;
  }

  lemma PlacedNothing(check: Check, s: State, t: State, stream: seq<byte>, n: int, w: Place)
    requires n <= |stream| && Placed(s, stream, n, w) && t == Listen(check, s, [])
    ensures Placed(t, stream, n, w)
  {
    ListenNothing(check, s, t);
    if n >= 0 {
      AtSame(s, t, stream, n, w);
    }
  }

  lemma PlacedRead(check: Check, s: State, t: State, stream: seq<byte>, n: int, c: seq<byte>, n': int, x: Piece, w: Place)
    returns (w': Place)
    requires GoodStream(check, stream) && |c| <= BUFFER_SIZE - (FRAME - 1) && n <= n' <= |stream|
    requires IsPiece(c, stream, n, n', x) && Placed(s, stream, n, w) && t == Listen(check, s, c)
    ensures Placed(t, stream, n', w')
  {
    hide At, Listen, GoodStream;
    SmallBuffer(check, s, c, t);
    w' := w;
    match x
    case Nothing => PlacedNothing(check, s, t, stream, n, w);
    case Early =>
    case First(g) => w' := FirstBytes(check, s, g, stream, n', c, t);
    case Further => w' := MoreBytes(check, s, stream, n, n', c, t, w);
  }

  lemma PlacedZero(s: State, t: State, stream: seq<byte>, n: int, w: Place)
    requires n <= |stream| && Placed(s, stream, n, w) && t == s.(zeroFlag := true)
    ensures Placed(t, stream, n, w)
  {
    if n >= 0 {
      AtSame(s, t, stream, n, w);
    }
  }

  lemma PlacedFirst(s: State, stream: seq<byte>, n: int)
    requires |s.buffer| <= BUFFER_SIZE && n <= 0
    ensures Placed(s, stream, n, Behind(s.buffer))
  {
    assert s.buffer + stream[..0] == s.buffer;
  }

  lemma NextPiece(all: seq<byte>, garbage: seq<byte>, stream: seq<byte>, before: seq<byte>, c: seq<byte>) returns (x: Piece)
    requires all == before + c && all <= garbage + stream && |c| <= BUFFER_SIZE - (FRAME - 1)
    ensures before <= garbage + stream && IsPiece(c, stream, |before| - |garbage|, |all| - |garbage|, x)
  {
    assert before + c == (garbage + stream)[..|before + c|];
    x := PieceOf(c, garbage, stream, |before|);
  }

  lemma PlacedChunk(check: Check, s: State, t: State, garbage: seq<byte>, stream: seq<byte>, before: seq<byte>, c: seq<byte>, all: seq<byte>, w: Place)
    returns (w': Place)
    requires GoodStream(check, stream) && |c| <= BUFFER_SIZE - (FRAME - 1) && all == before + c && all <= garbage + stream
    requires Placed(s, stream, |before| - |garbage|, w) && t == Listen(check, s, c)
    ensures Placed(t, stream, |all| - |garbage|, w')
  {
    hide Placed, Listen, GoodStream;
    var x := NextPiece(all, garbage, stream, before, c);
    w' := PlacedRead(check, s, t, stream, |before| - |garbage|, c, |all| - |garbage|, x, w);
  }

  lemma BytesMore(run: seq<Label>)
    requires run != []
    ensures var l := run[|run| - 1];
      Bytes(run) == if l.Read? then Bytes(run[..|run| - 1]) + l.chunk else Bytes(run[..|run| - 1])
  {
    assert Bytes(run[..|run| - 1]) + [] == Bytes(run[..|run| - 1]);
  }

  lemma {:induction false} StaysPlaced(check: Check, s: State, run: seq<Label>, garbage: seq<byte>, stream: seq<byte>)
    returns (w: Place)
    requires |s.buffer| <= BUFFER_SIZE && GoodStream(check, stream) && SmallChunks(run) && Bytes(run) <= garbage + stream
    ensures Placed(Continue(check, s, run), stream, |Bytes(run)| - |garbage|, w)
  {
    hide Placed, Listen, GoodStream;
    var n := |Bytes(run)| - |garbage|;
    if run == [] {
      PlacedFirst(s, stream, n);
      w := Behind(s.buffer);
    } else {
      var before := run[..|run| - 1];
      BytesMore(run);
      w := StaysPlaced(check, s, before, garbage, stream);
      var t, u := Continue(check, s, before), Continue(check, s, run);
      match run[|run| - 1]
      case Zero => PlacedZero(t, u, stream, n, w);
      case Read(c) => w := PlacedChunk(check, t, u, garbage, stream, Bytes(before), c, Bytes(run), w);
    }
  }

  lemma PlaceAtLast(s: State, stream: seq<byte>, w: Place)
    requires |stream| >= FRAME * (LATEST + 1) && At(s, stream, |stream|, w)
    ensures Aligned(s, stream)
  {
    assert w.InStep?;
    assert stream[FRAME * (|stream| / FRAME)..|stream|] == stream[FRAME * (|stream| / FRAME)..];
  }

  /**
   * Recovery. Whatever the receiver holds and whatever comes first, when a good stream follows and 1025 of its
   * frames have come, it holds exactly the bytes after the last whole frame, and the values published are those
   * of that frame; for chunks of at most 1009 bytes, however they are cut.
   */
  lemma RecoversInStream(check: Check, s: State, run: seq<Label>, garbage: seq<byte>, stream: seq<byte>)
    requires |s.buffer| <= BUFFER_SIZE && GoodStream(check, stream) && SmallChunks(run) && Bytes(run) == garbage + stream
    requires |stream| >= FRAME * (LATEST + 1)
    ensures Aligned(Continue(check, s, run), stream)
  {
    var w := StaysPlaced(check, s, run, garbage, stream);
    PlaceAtLast(Continue(check, s, run), stream, w);
  }
}
