/**
 * The Modbus TCP client: framing, and the matching of responses to requests over a byte stream that
 * delivers and takes bytes in pieces of any size.
 */
module ModbusTcp {
  import opened Messages
  import opened ProcessImage
  import opened Wrappers

  const TRANSACTIONS := 0x1_0000
  const MAX_PDU := 253

  datatype Error =
    | Closed
    | InvalidPdu
    | Io
    | TransactionMismatch
    | ProtocolMismatch
    | UnitMismatch
    | InvalidLength
    | Exception(refused: uint8, code: uint8)
    | FunctionMismatch
    | UnexpectedContent

  type Pdu = seq<uint8>

  // ---------------------------------------------------------------- frames

  function U16(value: nat): seq<uint8> {
    [value / 256 % 256, value % 256]
  }

  function ReadU16(data: seq<uint8>, offset: nat): nat
    requires offset + 1 < |data|
  {
    data[offset] as int * 256 + data[offset + 1] as int
  }

  function Frame(transaction: nat, unit: uint8, pdu: Pdu): seq<uint8> {
    U16(transaction) + U16(0) + U16(1 + |pdu|) + [unit] + pdu
  }

  function NextTransaction(id: nat): nat {
    (id + 1) % TRANSACTIONS
  }

  /** A response the client hands on for a request with this function code. */
  predicate Answers(pdu: Pdu, code: uint8) {
    1 <= |pdu| <= MAX_PDU && pdu[0] == code && pdu[0] < 0x80
  }

  /** The bytes from `at` on begin with a response to a request with this transaction id and function code. */
  predicate StartsWith(stream: seq<uint8>, at: nat, transaction: nat, unit: uint8, code: uint8, pdu: Pdu) {
    at <= |stream| && Answers(pdu, code) && Frame(transaction, unit, pdu) <= stream[at..]
  }

  /** The first complaint about a header. */
  function HeaderError(header: seq<uint8>, transaction: nat, unit: uint8): Error
    requires |header| == 7
  {
    if ReadU16(header, 0) != transaction then TransactionMismatch
    else if ReadU16(header, 2) != 0 then ProtocolMismatch
    else if header[6] != unit then UnitMismatch
    else InvalidLength
  }

  lemma ReadBack(value: nat)
    requires value < TRANSACTIONS
    ensures U16(value)[0] as int * 256 + U16(value)[1] as int == value
  {
  }

  lemma WriteBack(hi: uint8, lo: uint8)
    ensures U16(hi as int * 256 + lo as int) == [hi, lo]
  {
  }

  /** A frame, byte by byte: transaction, a zero protocol number, length, unit, and the request or response. */
  lemma FrameBytes(transaction: nat, unit: uint8, pdu: Pdu)
    requires transaction < 0x1_0000 && |pdu| <= 253
    ensures Frame(transaction, unit, pdu) == [transaction / 256, transaction % 256, 0, 0, 0, 1 + |pdu|, unit] + pdu
  {
  }

  /** A header with the right fields is the header of a frame. */
  lemma HeaderParts(header: seq<uint8>, transaction: nat, unit: uint8, length: nat)
    requires |header| == 7 && ReadU16(header, 0) == transaction && ReadU16(header, 2) == 0
    requires ReadU16(header, 4) == length && header[6] == unit
    ensures header == U16(transaction) + U16(0) + U16(length) + [unit]
  {
    WriteBack(header[0], header[1]);
    WriteBack(header[2], header[3]);
    WriteBack(header[4], header[5]);
  }

  /** The fields of a frame's header. */
  lemma FrameHeader(transaction: nat, unit: uint8, pdu: Pdu, header: seq<uint8>)
    requires transaction < TRANSACTIONS && |pdu| <= MAX_PDU && |header| == 7 && header <= Frame(transaction, unit, pdu)
    ensures ReadU16(header, 0) == transaction && ReadU16(header, 2) == 0 && ReadU16(header, 4) == 1 + |pdu| && header[6] == unit
  {
    var f := Frame(transaction, unit, pdu);
    assert f[0..2] == U16(transaction) && f[2..4] == U16(0) && f[4..6] == U16(1 + |pdu|) && f[6] == unit;
    ReadBack(transaction);
    ReadBack(1 + |pdu|);
    assert forall k :: 0 <= k < 7 ==> header[k] == f[k];
    assert f[0] == f[0..2][0] && f[1] == f[0..2][1];
    assert f[2] == f[2..4][0] && f[3] == f[2..4][1];
    assert f[4] == f[4..6][0] && f[5] == f[4..6][1];
  }

  /** A header with a wrong field is not that of a response. */
  lemma NotNext(stream: seq<uint8>, at: nat, header: seq<uint8>, transaction: nat, unit: uint8, code: uint8)
    requires transaction < TRANSACTIONS && at + 7 <= |stream| && header == stream[at..at + 7]
    requires ReadU16(header, 0) != transaction || ReadU16(header, 2) != 0 || header[6] != unit
             || ReadU16(header, 4) < 2 || ReadU16(header, 4) > 254
    ensures forall p :: !StartsWith(stream, at, transaction, unit, code, p)
  {
    forall p | StartsWith(stream, at, transaction, unit, code, p)
      ensures false
    {
      PrefixOf(header, Frame(transaction, unit, p), stream[at..]);
      FrameHeader(transaction, unit, p, header);
    }
  }

  lemma PrefixOf(a: seq<uint8>, b: seq<uint8>, s: seq<uint8>)
    requires a <= s && b <= s && |a| <= |b|
    ensures a <= b
  {
    assert forall k :: 0 <= k < |a| ==> a[k] == s[k] == b[k];
  }

  /** No stream begins with two different responses to one request. */
  lemma OnlyResponse(stream: seq<uint8>, at: nat, transaction: nat, unit: uint8, pdu: Pdu, code: uint8)
    requires transaction < TRANSACTIONS && |pdu| <= MAX_PDU && at <= |stream| && Frame(transaction, unit, pdu) <= stream[at..]
    ensures forall p :: StartsWith(stream, at, transaction, unit, code, p) ==> p == pdu
  {
    forall p | StartsWith(stream, at, transaction, unit, code, p)
      ensures p == pdu
    {
      SameFrame(stream[at..], transaction, unit, p, pdu);
    }
  }

  lemma SameFrame(s: seq<uint8>, transaction: nat, unit: uint8, p: Pdu, q: Pdu)
    requires transaction < TRANSACTIONS && |p| <= MAX_PDU && |q| <= MAX_PDU
    requires Frame(transaction, unit, p) <= s && Frame(transaction, unit, q) <= s
    ensures p == q
  {
    var header := s[..7];
    FrameHeader(transaction, unit, p, header);
    FrameHeader(transaction, unit, q, header);
    assert p == Frame(transaction, unit, p)[7..] == s[7..7 + |p|];
    assert q == Frame(transaction, unit, q)[7..] == s[7..7 + |q|];
  }

  /** A header with the right fields and as many bytes as it says are a frame, and no other response is there. */
  lemma WholeResponse(stream: seq<uint8>, at: nat, end: nat, transaction: nat, unit: uint8, code: uint8, header: seq<uint8>, response: Pdu)
    requires at + 7 <= end <= |stream| && header == stream[at..at + 7] && response == stream[at + 7..end]
    requires transaction < TRANSACTIONS && 1 <= |response| <= MAX_PDU
    requires ReadU16(header, 0) == transaction && ReadU16(header, 2) == 0 && ReadU16(header, 4) == 1 + |response| && header[6] == unit
    ensures stream[at..end] == Frame(transaction, unit, response)
    ensures forall p :: StartsWith(stream, at, transaction, unit, code, p) ==> p == response && Answers(response, code)
  {
    assert stream[at..end] == header + response;
    HeaderParts(header, transaction, unit, 1 + |response|);
    assert header + response == Frame(transaction, unit, response);
    assert stream[at..end] <= stream[at..];
    OnlyResponse(stream, at, transaction, unit, response, code);
  }

  // ---------------------------------------------------------------- a server that answers in order

  /** The frame of the `n`-th transaction of a connection that began with the counter at `base`. */
  function FrameAt(unit: uint8, base: nat, n: nat, pdu: Pdu): seq<uint8> {
    Frame((base + n) % TRANSACTIONS, unit, pdu)
  }

  /** The frames of the first transactions, one after the other. */
  function Frames(unit: uint8, base: nat, pdus: seq<Pdu>): seq<uint8> {
    if pdus == [] then []
    else Frames(unit, base, pdus[..|pdus| - 1]) + FrameAt(unit, base, |pdus|, pdus[|pdus| - 1])
  }

  predicate Sized(pdus: seq<Pdu>) {
    forall k :: 0 <= k < |pdus| ==> |pdus[k]| <= MAX_PDU
  }

  lemma {:induction false} FramesPrefix(unit: uint8, base: nat, pdus: seq<Pdu>, n: nat)
    requires n <= |pdus|
    ensures Frames(unit, base, pdus[..n]) <= Frames(unit, base, pdus)
    decreases |pdus|
  {
    if n == |pdus| {
      assert pdus[..n] == pdus;
    } else {
      assert pdus[..|pdus| - 1][..n] == pdus[..n];
      FramesPrefix(unit, base, pdus[..|pdus| - 1], n);
    }
  }

  /**
   * A stream that the server filled with its responses in order, and of which a beginning was taken
   * apart into responses, was taken apart into the server's: the k-th transaction returned the k-th one,
   * also when the 16-bit transaction counter has gone round.
   */
  lemma {:induction false} ResponsesInOrder(unit: uint8, base: nat, stream: seq<uint8>, returned: seq<Pdu>, served: seq<Pdu>)
    requires Sized(returned) && Sized(served) && |returned| <= |served|
    requires Frames(unit, base, returned) <= stream && Frames(unit, base, served) <= stream
    ensures returned == served[..|returned|]
    decreases |returned|
  {
    var n := |returned|;
    if n > 0 {
      var before, p, q := returned[..n - 1], returned[n - 1], served[n - 1];
      assert returned == before + [p];
      FramesMore(unit, base, before, p);
      FramesPrefix(unit, base, returned, n - 1);
      ResponsesInOrder(unit, base, stream, before, served);
      assert served[..n] == before + [q];
      FramesMore(unit, base, before, q);
      FramesPrefix(unit, base, served, n);
      NextInOrder(unit, base, n, Frames(unit, base, before), stream, p, q);
    }
  }

  lemma NextInOrder(unit: uint8, base: nat, n: nat, before: seq<uint8>, stream: seq<uint8>, p: Pdu, q: Pdu)
    requires |p| <= MAX_PDU && |q| <= MAX_PDU
    requires before + FrameAt(unit, base, n, p) <= stream && before + FrameAt(unit, base, n, q) <= stream
    ensures p == q
  {
    AfterPrefix(before, FrameAt(unit, base, n, p), stream);
    AfterPrefix(before, FrameAt(unit, base, n, q), stream);
    SameFrameAt(unit, base, n, stream[|before|..], p, q);
  }

  lemma SameFrameAt(unit: uint8, base: nat, n: nat, s: seq<uint8>, p: Pdu, q: Pdu)
    requires |p| <= MAX_PDU && |q| <= MAX_PDU
    requires FrameAt(unit, base, n, p) <= s && FrameAt(unit, base, n, q) <= s
    ensures p == q
  {
    SameFrame(s, (base + n) % TRANSACTIONS, unit, p, q);
  }

  lemma SliceMore(s: seq<uint8>, a: nat, b: nat, c: nat)
    requires a <= b <= c <= |s|
    ensures s[a..b] + s[b..c] == s[a..c]
  {
  }

  lemma AfterPrefix(a: seq<uint8>, b: seq<uint8>, s: seq<uint8>)
    requires a + b <= s
    ensures |a| <= |s| && b <= s[|a|..]
  {
  }

  lemma FramesMore(unit: uint8, base: nat, pdus: seq<Pdu>, pdu: Pdu)
    ensures Frames(unit, base, pdus + [pdu]) == Frames(unit, base, pdus) + FrameAt(unit, base, |pdus| + 1, pdu)
  {
    assert (pdus + [pdu])[..|pdus|] == pdus;
  }

  lemma CounterGoesOn(base: nat, n: nat)
    ensures NextTransaction((base + n) % TRANSACTIONS) == (base + n + 1) % TRANSACTIONS
  {
  }

  /** These bytes are these responses, and the counter stands where they left it. */
  predicate InStep(unit: uint8, base: nat, pdus: seq<Pdu>, bytes: seq<uint8>, transaction: nat) {
    && bytes == Frames(unit, base, pdus)
    && transaction == (base + |pdus|) % TRANSACTIONS
    && Sized(pdus)
  }

  lemma InStepMore(unit: uint8, base: nat, pdus: seq<Pdu>, bytes: seq<uint8>, transaction: nat, pdu: Pdu, bytes': seq<uint8>)
    requires InStep(unit, base, pdus, bytes, transaction) && |pdu| <= MAX_PDU
    requires bytes' == bytes + Frame(NextTransaction(transaction), unit, pdu)
    ensures InStep(unit, base, pdus + [pdu], bytes', NextTransaction(transaction))
  {
    FramesMore(unit, base, pdus, pdu);
    CounterGoesOn(base, |pdus|);
  }

  // ---------------------------------------------------------------- what the socket does

  /** One wait and the operation after it: how long it took, whether it failed, how many bytes moved. */
  datatype Turn = Turn(elapsed: nat, fails: bool, blocks: bool, count: nat)

  function Min(a: nat, b: nat): nat {
    if a < b then a else b
  }

  /** How many turns were taken, and the time. */
  datatype Clock = Clock(turn: nat, now: nat)

  /** When the socket has moved `size` bytes, unless it fails or the deadline comes first. */
  function Moving(turns: nat -> Turn, c: Clock, deadline: nat, size: nat): (moved: Option<Clock>)
    ensures moved.Some? ==> c.now <= moved.value.now
    decreases if c.now < deadline then deadline - c.now else 0
  {
    if size == 0 then Some(c)
    else if c.now >= deadline then None
    else
      var t := turns(c.turn);
      var next := Clock(c.turn + 1, c.now + 1 + t.elapsed);
      if t.fails then None
      else if t.blocks then Moving(turns, next, deadline, size)
      else if t.count == 0 then None
      else Moving(turns, next, deadline, size - Min(t.count, size))
  }

  /** A header and `size` more bytes come in, each in time. */
  predicate Reads(turns: nat -> Turn, c: Clock, timeout: nat, size: nat) {
    var header := Moving(turns, c, c.now + timeout, 7);
    header.Some? && Moving(turns, header.value, header.value.now + timeout, size).Some?
  }

  /** A request goes out and its response comes in, each part in time. */
  predicate Exchanges(turns: nat -> Turn, c: Clock, timeout: nat, request: nat, response: nat) {
    var sent := Moving(turns, c, c.now + timeout, request);
    sent.Some? && Reads(turns, sent.value, timeout, response)
  }

  /** A socket that never fails, is always ready and moves something in every turn is in time if the deadline allows for one turn a byte. */
  lemma {:induction false} ReadySocketMoves(turns: nat -> Turn, c: Clock, deadline: nat, size: nat, elapsed: nat)
    requires forall n: nat :: !turns(n).fails && !turns(n).blocks && turns(n).count > 0 && turns(n).elapsed <= elapsed
    requires deadline >= c.now + Whole(size, elapsed)
    ensures Moving(turns, c, deadline, size).Some?
    decreases size
  {
    if size > 0 {
      var t := turns(c.turn);
      var n := Min(t.count, size);
      WholeLess(size, n, elapsed);
      ReadySocketMoves(turns, Clock(c.turn + 1, c.now + 1 + t.elapsed), deadline, size - n, elapsed);
    }
  }

  /** The time `n` turns take at most. */
  function Whole(n: nat, elapsed: nat): nat {
    if n == 0 then 0 else 1 + elapsed + Whole(n - 1, elapsed)
  }

  lemma {:induction false} WholeLess(size: nat, n: nat, elapsed: nat)
    requires 1 <= n <= size
    ensures Whole(size - n, elapsed) + 1 + elapsed <= Whole(size, elapsed)
  {
    if n > 1 {
      WholeLess(size - 1, n - 1, elapsed);
    }
  }

  /** What follows from the response that is next for the header read and for the bytes there are. */
  lemma NextHeader(stream: seq<uint8>, at: nat, transaction: nat, unit: uint8, code: uint8, p: Pdu)
    requires transaction < TRANSACTIONS && StartsWith(stream, at, transaction, unit, code, p)
    ensures at + 7 + |p| <= |stream| && ReadU16(stream[at..at + 7], 4) == 1 + |p|
  {
    var header := stream[at..at + 7];
    PrefixOf(header, Frame(transaction, unit, p), stream[at..]);
    FrameHeader(transaction, unit, p, header);
  }

  /** Reading for a response returns it exactly when it is next and comes in time. */
  ghost predicate Received(stream: seq<uint8>, at: nat, transaction: nat, unit: uint8, code: uint8,
                           turns: nat -> Turn, c: Clock, timeout: nat, r: Result<Pdu, Error>) {
    && (r.Success? ==> Reads(turns, c, timeout, |r.value|))
    && forall p :: StartsWith(stream, at, transaction, unit, code, p) && Reads(turns, c, timeout, |p|) ==> r == Success(p)
  }

  /** The response to a request is the next thing in the stream, and the socket moves both in time. */
  predicate Serves(stream: seq<uint8>, at: nat, transaction: nat, unit: uint8, turns: nat -> Turn, c: Clock, timeout: nat, request: Pdu, p: Pdu)
    requires request != []
  {
    && StartsWith(stream, at, transaction, unit, request[0], p)
    && Exchanges(turns, c, timeout, 7 + |request|, |p|)
  }

  /** A transaction returns a response exactly when it is served. */
  ghost predicate Exchanged(stream: seq<uint8>, at: nat, transaction: nat, unit: uint8,
                            turns: nat -> Turn, c: Clock, timeout: nat, request: Pdu, r: Result<Pdu, Error>)
    requires request != []
  {
    && (r.Success? ==> Serves(stream, at, transaction, unit, turns, c, timeout, request, r.value))
    && forall p :: Serves(stream, at, transaction, unit, turns, c, timeout, request, p) ==> r == Success(p)
  }

  lemma NothingNext(stream: seq<uint8>, at: nat, transaction: nat, unit: uint8, code: uint8, turns: nat -> Turn, c: Clock, timeout: nat, e: Error)
    requires forall p :: !StartsWith(stream, at, transaction, unit, code, p)
    ensures Received(stream, at, transaction, unit, code, turns, c, timeout, Failure(e))
  {
  }

  lemma OneNext(stream: seq<uint8>, at: nat, transaction: nat, unit: uint8, code: uint8, turns: nat -> Turn, c: Clock, timeout: nat, pdu: Pdu)
    requires forall p :: StartsWith(stream, at, transaction, unit, code, p) ==> p == pdu
    requires Reads(turns, c, timeout, |pdu|)
    ensures Received(stream, at, transaction, unit, code, turns, c, timeout, Success(pdu))
  {
  }

  /** No header came in time. */
  lemma NoHeader(stream: seq<uint8>, at: nat, transaction: nat, unit: uint8, code: uint8, turns: nat -> Turn, c: Clock, timeout: nat)
    requires transaction < TRANSACTIONS && (at + 7 <= |stream| ==> Moving(turns, c, c.now + timeout, 7) == None)
    ensures Received(stream, at, transaction, unit, code, turns, c, timeout, Failure(Io))
  {
    forall p | StartsWith(stream, at, transaction, unit, code, p)
      ensures !Reads(turns, c, timeout, |p|)
    {
      NextHeader(stream, at, transaction, unit, code, p);
    }
  }

  /** The rest of the response did not come in time. */
  lemma NoBody(stream: seq<uint8>, at: nat, transaction: nat, unit: uint8, code: uint8, turns: nat -> Turn, c: Clock, timeout: nat,
               length: nat, d: Clock)
    requires transaction < TRANSACTIONS && at + 7 <= |stream| && length == ReadU16(stream[at..at + 7], 4) && length > 0
    requires Moving(turns, c, c.now + timeout, 7) == Some(d)
    requires at + 7 + (length - 1) <= |stream| ==> Moving(turns, d, d.now + timeout, length - 1) == None
    ensures Received(stream, at, transaction, unit, code, turns, c, timeout, Failure(Io))
  {
    forall p | StartsWith(stream, at, transaction, unit, code, p)
      ensures !Reads(turns, c, timeout, |p|)
    {
      NextHeader(stream, at, transaction, unit, code, p);
    }
  }

  lemma FrameSize(transaction: nat, unit: uint8, pdu: Pdu)
    ensures |Frame(transaction, unit, pdu)| == 7 + |pdu|
  {
  }

  lemma NotSent(stream: seq<uint8>, at: nat, transaction: nat, unit: uint8, turns: nat -> Turn, c: Clock, timeout: nat, request: Pdu)
    requires request != [] && Moving(turns, c, c.now + timeout, 7 + |request|) == None
    ensures Exchanged(stream, at, transaction, unit, turns, c, timeout, request, Failure(Io))
  {
    hide StartsWith, Moving, Reads;
  }

  /** The reading comes after the sending. */
  lemma SentThenReceived(stream: seq<uint8>, at: nat, transaction: nat, unit: uint8, turns: nat -> Turn, c: Clock, timeout: nat,
                         request: Pdu, d: Clock, r: Result<Pdu, Error>)
    requires request != [] && Moving(turns, c, c.now + timeout, 7 + |request|) == Some(d)
    requires r.Success? ==> StartsWith(stream, at, transaction, unit, request[0], r.value)
    requires Received(stream, at, transaction, unit, request[0], turns, d, timeout, r)
    ensures Exchanged(stream, at, transaction, unit, turns, c, timeout, request, r)
  {
    hide StartsWith, Moving, Reads;
  }

  lemma IsNext(stream: seq<uint8>, at: nat, end: nat, transaction: nat, unit: uint8, code: uint8, p: Pdu)
    requires at <= end <= |stream| && Answers(p, code) && stream[at..end] == Frame(transaction, unit, p)
    ensures StartsWith(stream, at, transaction, unit, code, p)
  {
    assert stream[at..end] <= stream[at..];
  }

  class Client {
    const unit: uint8
    const timeout: nat
    const turns: nat -> Turn
    var transaction: nat
    var open: bool
    var incoming: seq<uint8>
    var consumed: nat
    var outgoing: seq<uint8>
    var now: nat
    var turn: nat
    ghost var base: nat
    ghost var returned: seq<Pdu>

    /** Since the connection was opened, exactly the responses returned have been consumed. */
    ghost predicate Aligned()
      requires Valid()
      reads this
    {
      InStep(unit, base, returned, incoming[..consumed], transaction)
    }

    ghost predicate Valid()
      reads this
    {
      transaction < TRANSACTIONS && consumed <= |incoming|
    }

    function Tick(): Clock
      reads this
    {
      Clock(turn, now)
    }

    constructor (unit: uint8, timeout: nat, turns: nat -> Turn)
      ensures Valid() && !open && transaction == 0
      ensures this.unit == unit && this.timeout == timeout
    {
      this.unit, this.timeout, this.turns := unit, timeout, turns;
      transaction, open, incoming, consumed, outgoing, now, turn := 0, false, [], 0, [], 0, 0;
      base, returned := 0, [];
    }

    /** A new connection, over which the peer will send `stream`. The transaction counter goes on. */
    method Connect(stream: seq<uint8>)
      requires Valid()
      modifies this`open, this`incoming, this`consumed, this`outgoing, this`base, this`returned
      ensures Valid() && open && incoming == stream && consumed == 0 && outgoing == []
      ensures Aligned() && base == transaction && returned == []
    {
      open, incoming, consumed, outgoing := true, stream, 0, [];
      base, returned := transaction, [];
    }

    method Close()
      modifies this`open
      ensures !open
    {
      open := false;
    }

    /** Waits for the socket; false on a timeout or a failure. */
    method WaitFor(deadline: nat) returns (ready: bool)
      modifies this`now
      ensures ready == (open && old(now) < deadline && !turns(turn).fails)
      ensures now == if open && old(now) < deadline then old(now) + 1 + turns(turn).elapsed else old(now)
    {
      if !open || now >= deadline {
        return false;
      }
      now := now + 1 + turns(turn).elapsed;
      ready := !turns(turn).fails;
    }

    /** Writes until everything is out or something fails; what is out is always a beginning of the data. */
    method SendAll(data: seq<uint8>) returns (ok: bool)
      modifies this`outgoing, this`now, this`turn
      ensures ok ==> outgoing == old(outgoing) + data
      ensures !ok ==> exists k :: 0 <= k < |data| && outgoing == old(outgoing) + data[..k]
      ensures open && data != [] ==>
                Moving(turns, old(Tick()), old(now) + timeout, |data|) == if ok then Some(Tick()) else None
    {
      var deadline := now + timeout;
      var offset := 0;
      while offset < |data|
        invariant 0 <= offset <= |data|
        invariant Moving(turns, old(Tick()), deadline, |data|) == Moving(turns, Tick(), deadline, |data| - offset)
        invariant outgoing == old(outgoing) + data[..offset]
        decreases deadline - now
      {
        var ready := WaitFor(deadline);
        var t := turns(turn);
        turn := turn + 1;
        if !ready {
          return false;
        }
        if t.blocks {
          continue;
        }
        var count := Min(t.count, |data| - offset);
        if count == 0 {
          return false;
        }
        outgoing := outgoing + data[offset..offset + count];
        assert data[..offset] + data[offset..offset + count] == data[..offset + count];
        offset := offset + count;
      }
      assert data[..offset] == data;
      ok := true;
    }

    /** Reads until there are `size` bytes or something fails. */
    method ReceiveExact(size: nat) returns (r: Option<seq<uint8>>)
      requires Valid()
      modifies this`consumed, this`now, this`turn
      ensures Valid() && old(consumed) <= consumed <= old(consumed) + size
      ensures r.Some? ==> consumed == old(consumed) + size && r.value == incoming[old(consumed)..consumed]
      ensures r.None? ==> consumed < old(consumed) + size
      ensures open && old(consumed) + size <= |incoming| ==>
                Moving(turns, old(Tick()), old(now) + timeout, size) == if r.Some? then Some(Tick()) else None
    {
      var deadline := now + timeout;
      var data := [];
      while |data| < size
        invariant Valid() && |data| <= size
        invariant old(consumed) + size <= |incoming| ==>
                    Moving(turns, old(Tick()), deadline, size) == Moving(turns, Tick(), deadline, size - |data|)
        invariant consumed == old(consumed) + |data| && data == incoming[old(consumed)..consumed]
        decreases deadline - now
      {
        var ready := WaitFor(deadline);
        var t := turns(turn);
        turn := turn + 1;
        if !ready {
          return None;
        }
        if t.blocks {
          continue;
        }
        var count := Min(t.count, Min(size - |data|, |incoming| - consumed));
        if count == 0 {
          return None;
        }
        SliceMore(incoming, old(consumed), consumed, consumed + count);
        data := data + incoming[consumed..consumed + count];
        consumed := consumed + count;
      }
      r := Some(data);
    }

    /** The last two checks, on the function code. */
    method JudgeResponse(response: Pdu, code: uint8) returns (r: Result<Pdu, Error>)
      requires 1 <= |response| <= MAX_PDU
      ensures r.Success? <==> Answers(response, code)
      ensures r.Success? ==> r.value == response
      ensures r.Failure? ==> r.error != Io
    {
      if response[0] >= 0x80 {
        return Failure(Exception(response[0] - 0x80, if |response| > 1 then response[1] else 0));
      }
      if response[0] != code {
        return Failure(FunctionMismatch);
      }
      return Success(response);
    }

    /** The reading half of a transaction: header, checks, the rest of the frame, checks. */
    method ReceiveResponse(code: uint8) returns (r: Result<Pdu, Error>)
      requires Valid() && open
      modifies this`consumed, this`now, this`turn
      ensures Valid() && old(consumed) <= consumed
      ensures r.Success? ==>
                Answers(r.value, code) && incoming[old(consumed)..consumed] == Frame(transaction, unit, r.value)
      ensures r.Failure? && r.error != Io ==>
                forall p :: !StartsWith(incoming, old(consumed), transaction, unit, code, p)
      ensures Received(incoming, old(consumed), transaction, unit, code, turns, old(Tick()), timeout, r)
    {
      hide StartsWith, Received, Reads, Moving, Frame;
      ghost var start, before := consumed, Tick();
      var h := ReceiveExact(7);
      if h.None? {
        NoHeader(incoming, start, transaction, unit, code, turns, before, timeout);
        return Failure(Io);
      }
      ghost var between := Tick();
      var header := h.value;
      var length := ReadU16(header, 4);
      if ReadU16(header, 0) != transaction || ReadU16(header, 2) != 0 || header[6] != unit || length < 2 || length > 254 {
        NotNext(incoming, start, header, transaction, unit, code);
        NothingNext(incoming, start, transaction, unit, code, turns, before, timeout, HeaderError(header, transaction, unit));
        return Failure(HeaderError(header, transaction, unit));
      }
      var body := ReceiveExact(length - 1);
      if body.None? {
        NoBody(incoming, start, transaction, unit, code, turns, before, timeout, length, between);
        return Failure(Io);
      }
      var response := body.value;
      WholeResponse(incoming, start, consumed, transaction, unit, code, header, response);
      r := JudgeResponse(response, code);
      if r.Success? {
        OneNext(incoming, start, transaction, unit, code, turns, before, timeout, response);
      } else {
        NothingNext(incoming, start, transaction, unit, code, turns, before, timeout, r.error);
      }
    }

    /** A transaction on an open connection, for a request of a legal size. */
    method SendAndReceive(pdu: Pdu) returns (r: Result<Pdu, Error>)
      requires Valid() && open && 1 <= |pdu| <= MAX_PDU
      modifies this`transaction, this`consumed, this`outgoing, this`now, this`turn
      ensures Valid() && old(consumed) <= consumed && transaction == NextTransaction(old(transaction))
      ensures r.Success? ==>
                && Answers(r.value, pdu[0])
                && incoming[old(consumed)..consumed] == Frame(transaction, unit, r.value)
                && outgoing == old(outgoing) + Frame(transaction, unit, pdu)
      ensures r.Failure? && r.error != Io ==>
                forall p :: !StartsWith(incoming, old(consumed), transaction, unit, pdu[0], p)
      ensures Exchanged(incoming, old(consumed), transaction, unit, turns, old(Tick()), timeout, pdu, r)
    {
      hide Frame, StartsWith, Moving, Reads, Exchanges, Exchanged, Received, Answers;
      transaction := NextTransaction(transaction);
      FrameSize(transaction, unit, pdu);
      var sent := SendAll(Frame(transaction, unit, pdu));
      if !sent {
        NotSent(incoming, old(consumed), transaction, unit, turns, old(Tick()), timeout, pdu);
        return Failure(Io);
      }
      ghost var sending := Tick();
      r := ReceiveResponse(pdu[0]);
      if r.Success? {
        IsNext(incoming, old(consumed), consumed, transaction, unit, pdu[0], r.value);
      }
      SentThenReceived(incoming, old(consumed), transaction, unit, turns, old(Tick()), timeout, pdu, sending, r);
    }

    /**
     * One transaction. It succeeds only by consuming exactly one whole response to it, and it does so exactly
     * when one is next and the socket moves the request and the response in time.
     */
    method Transact(pdu: Pdu) returns (r: Result<Pdu, Error>)
      requires Valid()
      modifies this`transaction, this`consumed, this`outgoing, this`now, this`turn, this`returned
      ensures Valid() && old(consumed) <= consumed
      ensures returned == if r.Success? then old(returned) + [r.value] else old(returned)
      ensures r.Success? && old(Aligned()) ==> Aligned()
      ensures !open || !(1 <= |pdu| <= MAX_PDU) ==>
                r.Failure? && transaction == old(transaction) && consumed == old(consumed) && outgoing == old(outgoing)
      ensures open && 1 <= |pdu| <= MAX_PDU ==> transaction == NextTransaction(old(transaction))
      ensures r.Success? ==>
                && open && 1 <= |pdu| <= MAX_PDU
                && Answers(r.value, pdu[0])
                && incoming[old(consumed)..consumed] == Frame(transaction, unit, r.value)
                && outgoing == old(outgoing) + Frame(transaction, unit, pdu)
      ensures r.Failure? && open && 1 <= |pdu| <= MAX_PDU && r.error != Io ==>
                forall p :: !StartsWith(incoming, old(consumed), transaction, unit, pdu[0], p)
      ensures open && 1 <= |pdu| <= MAX_PDU ==>
                Exchanged(incoming, old(consumed), transaction, unit, turns, old(Tick()), timeout, pdu, r)
    {
      if !open {
        return Failure(Closed);
      }
      if pdu == [] || |pdu| > MAX_PDU {
        return Failure(InvalidPdu);
      }
      hide Frame, Exchanged, StartsWith, Answers, InStep, NextTransaction;
      ghost var aligned, start := Aligned(), consumed;
      r := SendAndReceive(pdu);
      if r.Success? {
        if aligned {
          assert incoming[..consumed] == incoming[..start] + incoming[start..consumed];
          InStepMore(unit, base, returned, incoming[..start], old(transaction), r.value, incoming[..consumed]);
        }
        returned := returned + [r.value];
      }
    }

    /** `read_status`: eight input registers from register 0. */
    method ReadStatus() returns (r: Result<Image, Error>)
      requires Valid()
      modifies this`transaction, this`consumed, this`outgoing, this`now, this`turn, this`returned
      ensures Valid() && old(consumed) <= consumed
      ensures r.Success? ==>
                && open
                && incoming[old(consumed)..consumed] == Frame(transaction, unit, [0x04, 16] + r.value)
                && outgoing == old(outgoing) + Frame(transaction, unit, [0x04, 0, 0, 0, 8])
                && returned == old(returned) + [[0x04, 16] + r.value]
      ensures r.Success? && old(Aligned()) ==> Aligned()
      ensures forall image: Image :: open ==>
                (r == Success(image) <==> Serves(incoming, old(consumed), NextTransaction(old(transaction)), unit, turns, old(Tick()), timeout,
                                                 [0x04, 0, 0, 0, 8], [0x04, 16] + image))
    {
      var response :- Transact([0x04, 0x00, 0x00, 0x00, 0x08]);
      if |response| != 18 || response[1] != 16 {
        return Failure(UnexpectedContent);
      }
      assert response == [0x04, 16] + response[2..];
      return Success(response[2..]);
    }

    /** `write_command`: eight holding registers from register 0, acknowledged by their address and number. */
    method WriteCommand(command: Image) returns (r: Result<(), Error>)
      requires Valid()
      modifies this`transaction, this`consumed, this`outgoing, this`now, this`turn, this`returned
      ensures Valid() && old(consumed) <= consumed
      ensures r.Success? ==>
                && open
                && incoming[old(consumed)..consumed] == Frame(transaction, unit, [0x10, 0, 0, 0, 8])
                && outgoing == old(outgoing) + Frame(transaction, unit, [0x10, 0, 0, 0, 8, 16] + command)
                && returned == old(returned) + [[0x10, 0, 0, 0, 8]]
      ensures r.Success? && old(Aligned()) ==> Aligned()
      ensures open ==>
                (r.Success? <==> Serves(incoming, old(consumed), NextTransaction(old(transaction)), unit, turns, old(Tick()), timeout,
                                        [0x10, 0, 0, 0, 8, 16] + command, [0x10, 0, 0, 0, 8]))
    {
      var request := [0x10] + U16(0) + U16(8) + [16] + command;
      assert request == [0x10, 0, 0, 0, 8, 16] + command;
      var response :- Transact(request);
      if |response| != 5 || ReadU16(response, 1) != 0 || ReadU16(response, 3) != 8 {
        return Failure(UnexpectedContent);
      }
      assert response == [0x10, 0, 0, 0, 8];
      return Success(());
    }

    /**
     * The driver's use of a connection: one transaction after the other, and the socket closed on the
     * first failure, after which nothing more is read.
     */
    method Converse(requests: seq<Pdu>) returns (results: seq<Pdu>)
      requires Valid() && open && Aligned() && returned == []
      modifies this`transaction, this`consumed, this`outgoing, this`now, this`turn, this`returned, this`open
      ensures Valid() && |results| <= |requests| && results == returned
      ensures open <==> |results| == |requests|
      ensures Frames(unit, base, results) <= incoming && Sized(results)
      ensures open ==> incoming[..consumed] == Frames(unit, base, results)
      ensures forall k :: 0 <= k < |results| ==> Answers(results[k], if requests[k] == [] then 0 else requests[k][0])
    {
      results := [];
      while |results| < |requests|
        invariant Valid() && open && Aligned() && |results| <= |requests| && results == returned
        invariant forall k :: 0 <= k < |results| ==> Answers(results[k], if requests[k] == [] then 0 else requests[k][0])
      {
        ghost var at := consumed;
        var r := Transact(requests[|results|]);
        if r.Failure? {
          assert incoming[..at] <= incoming;
          Close();
          return;
        }
        results := results + [r.value];
      }
    }
  }

  /** Against a server that answers in order, a conversation returns the server's responses. */
  lemma ConversationInOrder(unit: uint8, base: nat, stream: seq<uint8>, results: seq<Pdu>, served: seq<Pdu>)
    requires Frames(unit, base, results) <= stream && Sized(results)
    requires stream == Frames(unit, base, served) && Sized(served) && |results| <= |served|
    ensures forall k :: 0 <= k < |results| ==> results[k] == served[k]
  {
    ResponsesInOrder(unit, base, stream, results, served);
  }
}
