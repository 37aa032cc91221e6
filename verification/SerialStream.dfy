/**
 * The receiver of the force-torque sensor's serial stream: it collects bytes in a fixed buffer, looks
 * for the last frame in it, and watches over two timers.
 */
module SerialStream {
  import opened CrcRegister
  import opened ModbusFrames

  const FRAME := 16
  const DETECTION_LIMIT := 20
  const VALIDITY_LIMIT := 40
  const VALUES := 6

  /** Whether a frame's checksum fits; the receiver uses ModbusFrames.Accepts. */
  type Check = seq<byte> -> bool

  datatype State = State(
    buffer: seq<byte>,
    data: seq<real>,
    offset: seq<real>,
    zeroFlag: bool,
    detectionTimer: nat,
    validityTimer: nat,
    detected: bool,
    valid: bool,
    newMessage: bool)

  const ZEROS := [0.0, 0.0, 0.0, 0.0, 0.0, 0.0]

  const INITIAL_STATE := State([], ZEROS, ZEROS, false, 0, 0, false, false, false)

  // ---------------------------------------------------------------- what one call does

  /** Before reading: a pending zero request is carried out and the two timers advance. */
  function Tick(s: State): State {
    var z := if s.zeroFlag then s.(zeroFlag := false, offset := s.data) else s;
    var d := if z.detectionTimer > DETECTION_LIMIT then z.(detectionTimer := DETECTION_LIMIT, detected := false)
             else z.(detectionTimer := z.detectionTimer + 1);
    if d.validityTimer > VALIDITY_LIMIT then d.(validityTimer := VALIDITY_LIMIT, valid := false)
    else d.(validityTimer := d.validityTimer + 1)
  }

  function Hear(s: State, chunk: seq<byte>): State {
    if chunk == [] then s else s.(detected := true, detectionTimer := 0)
  }

  /** A chunk that does not fit empties the buffer; what is left of the chunk is dropped. */
  function Store(buffer: seq<byte>, chunk: seq<byte>): seq<byte> {
    if |buffer| + |chunk| <= BUFFER_SIZE then buffer + chunk else []
  }

  predicate HeaderAt(buffer: seq<byte>, i: nat)
    requires i + 1 < |buffer|
  {
    buffer[i] == 0x20 && buffer[i + 1] == 0x4E
  }

  /** The last place at or before `i` where a frame may begin, or -1. */
  function LastHeader(buffer: seq<byte>, i: int): (k: int)
    requires i + FRAME <= |buffer|
    ensures -1 <= k && (k != -1 ==> k <= i && HeaderAt(buffer, k))
    ensures forall j :: 0 <= j && k < j <= i ==> !HeaderAt(buffer, j)
    decreases i + 1
  {
    if i < 0 then -1 else if HeaderAt(buffer, i) then i else LastHeader(buffer, i - 1)
  }

  /** Two bytes, low byte first, as a signed number. */
  function Signed(lo: byte, hi: byte): int {
    var n := lo as int + 256 * (hi as int);
    if n >= 0x8000 then n - 0x1_0000 else n
  }

  function Scaled(lo: byte, hi: byte, j: nat): real {
    Signed(lo, hi) as real / (if j < 3 then 100.0 else 1000.0)
  }

  /** Value `j` of a frame: forces in hundredths, torques in thousandths. */
  function ValueAt(frame: seq<byte>, j: nat): real
    requires |frame| == FRAME && j < VALUES
  {
    Scaled(frame[2 + 2 * j], frame[3 + 2 * j], j)
  }

  function ValuesOf(frame: seq<byte>): seq<real>
    requires |frame| == FRAME
  {
    seq(VALUES, j requires 0 <= j < VALUES => ValueAt(frame, j))
  }

  /** The frame at `k` is read; it counts only if its checksum fits. */
  function Take(check: Check, s: State, k: nat): State
    requires k + FRAME <= |s.buffer|
  {
    var frame := s.buffer[k..k + FRAME];
    if check(frame) then s.(data := ValuesOf(frame), valid := true, newMessage := true, validityTimer := 0) else s
  }

  /** The last possible frame is read and dropped, with all before it. */
  function Search(check: Check, s: State): State {
    if |s.buffer| < FRAME then s
    else
      var k := LastHeader(s.buffer, |s.buffer| - FRAME);
      if k < 0 then s else Take(check, s, k).(buffer := s.buffer[k + FRAME..])
  }

  /** `rq_com_listen_stream` with the bytes it reads; a failed read is like one that brings none. */
  function Listen(check: Check, s: State, chunk: seq<byte>): State {
    var h := Hear(Tick(s), chunk);
    if chunk == [] then h else Search(check, h.(buffer := Store(h.buffer, chunk)))
  }

  /** A reading: the data less the offset, and 0 for a number that is no component. */
  function Reading(s: State, i: nat): real
    requires |s.data| == 6 && |s.offset| == 6
  {
    if i <= 5 then s.data[i] - s.offset[i] else 0.0
  }

  const CRC_CHECK: Check := frame => Accepts(frame)
}

/** The receiver as the static variables and buffers it is. */
module SerialReceiver {
  import opened Crc
  import opened CrcRegister
  import opened ModbusFrames
  import opened SerialMeasurement
  import opened SerialStream

  /** The backwards search down to `i`: no frame yet, or the last possible one handled. */
  ghost predicate Searched(s: State, t: State, i: int, end: nat)
    requires -1 <= i <= |s.buffer| - FRAME
  {
    var last := LastHeader(s.buffer, |s.buffer| - FRAME);
    if end == 0 then t == s && last == LastHeader(s.buffer, i)
    else FRAME <= end <= |s.buffer| && last == end - FRAME && t == Take(CRC_CHECK, s, end - FRAME)
  }

  lemma SearchedStart(s: State)
    requires |s.buffer| >= FRAME
    ensures Searched(s, s, |s.buffer| - FRAME, 0)
  {
  }

  lemma {:induction false} SearchedHere(s: State, i: nat)
    requires i <= |s.buffer| - FRAME && Searched(s, s, i, 0)
    ensures HeaderAt(s.buffer, i) ==> Searched(s, Take(CRC_CHECK, s, i), i - 1, i + FRAME)
    ensures !HeaderAt(s.buffer, i) ==> Searched(s, s, i - 1, 0)
  {
  }

  lemma SearchedOn(s: State, t: State, i: nat, end: nat)
    requires i <= |s.buffer| - FRAME && Searched(s, t, i, end) && end != 0
    ensures Searched(s, t, i - 1, end)
  {
  }

  class Receiver {
    const incoming: array<byte>
    const kept: array<byte>
    const received: array<real>
    const offset: array<real>
    var length: nat
    var zeroFlag: bool
    var detectionTimer: nat
    var validityTimer: nat
    var detected: bool
    var valid: bool
    var newMessage: bool

    ghost predicate Valid()
      reads this
    {
      && incoming.Length == BUFFER_SIZE && kept.Length == BUFFER_SIZE && incoming != kept
      && received.Length == VALUES && offset.Length == VALUES && received != offset
      && length <= BUFFER_SIZE
    }

    ghost function Contents(): State
      requires Valid()
      reads this, kept, received, offset
    {
      State(kept[..length], received[..], offset[..], zeroFlag, detectionTimer, validityTimer, detected, valid, newMessage)
    }

    constructor ()
      ensures Valid() && Contents() == INITIAL_STATE
      ensures fresh(incoming) && fresh(kept) && fresh(received) && fresh(offset)
    {
      incoming := new byte[BUFFER_SIZE];
      kept := new byte[BUFFER_SIZE];
      received := new real[VALUES](i => 0.0);
      offset := new real[VALUES](i => 0.0);
      length, zeroFlag, detectionTimer, validityTimer := 0, false, 0, 0;
      detected, valid, newMessage := false, false, false;
      new;
      assert received[..] == ZEROS && offset[..] == ZEROS;
    }

    /** `rq_com_do_zero_force_flag`. */
    method DoZeroForce()
      requires Valid()
      modifies this`zeroFlag
      ensures Valid() && Contents() == old(Contents()).(zeroFlag := true)
    {
      zeroFlag := true;
    }

    /** `rq_com_get_received_data`. */
    method GetReceivedData(i: nat) returns (value: real)
      requires Valid()
      ensures value == Reading(Contents(), i)
    {
      if i <= 5 {
        return received[i] - offset[i];
      }
      return 0.0;
    }

    method StoreOffset()
      requires Valid()
      modifies offset
      ensures offset[..] == received[..]
    {
      var i := 0;
      while i < VALUES
        invariant 0 <= i <= VALUES && offset[..i] == received[..i]
      {
        offset[i] := received[i];
        i := i + 1;
      }
      assert offset[..] == offset[..VALUES] && received[..] == received[..VALUES];
    }

    /** The zero request and the timers. */
    method TickTimers()
      requires Valid()
      modifies this`zeroFlag, this`detectionTimer, this`validityTimer, this`detected, this`valid, offset
      ensures Valid() && Contents() == Tick(old(Contents()))
    {
      if zeroFlag {
        zeroFlag := false;
        StoreOffset();
      }
      if detectionTimer > DETECTION_LIMIT {
        detectionTimer := DETECTION_LIMIT;
        detected := false;
      } else {
        detectionTimer := detectionTimer + 1;
      }
      if validityTimer > VALIDITY_LIMIT {
        validityTimer := VALIDITY_LIMIT;
        valid := false;
      } else {
        validityTimer := validityTimer + 1;
      }
    }

    /** The copying of the bytes read behind those kept. */
    method Append(count: nat)
      requires Valid() && count <= BUFFER_SIZE
      modifies this`length, kept
      ensures Valid() && kept[..length] == Store(old(kept[..length]), incoming[..count])
    {
      ghost var before := kept[..length];
      var i := 0;
      while i < count
        invariant Valid() && 0 <= i <= count && length == |before| + i
        invariant kept[..length] == before + incoming[..i]
      {
        if length == BUFFER_SIZE {
          length := 0;
          return;
        }
        kept[length] := incoming[i];
        length := length + 1;
        i := i + 1;
      }
    }

    /** The values of the frame that begins at `i`. */
    method DecodeAt(i: nat)
      requires Valid() && i + FRAME <= length
      modifies received
      ensures received[..] == ValuesOf(kept[i..i + FRAME])
      ensures forall values: seq<int16> :: |values| == 6 && kept[i + 2..i + 14] == Encoded(values) ==> Measures(received[..], values)
    {
      ghost var frame := kept[i..i + FRAME];
      var j := 0;
      while j < VALUES
        invariant 0 <= j <= VALUES
        invariant forall k :: 0 <= k < j ==> received[k] == ValueAt(frame, k)
      {
        assert frame[2 + 2 * j] == kept[i + 2 + 2 * j] && frame[3 + 2 * j] == kept[i + 3 + 2 * j];
        received[j] := Scaled(kept[i + 2 + 2 * j], kept[i + 3 + 2 * j], j);
        j := j + 1;
      }
      assert received[..] == ValuesOf(frame);
      forall values: seq<int16> | |values| == 6 && kept[i + 2..i + 14] == Encoded(values)
        ensures Measures(received[..], values)
      {
        assert frame[2..14] == kept[i + 2..i + 14];
        ValuesMeasured(frame, values);
      }
    }

    /** Drops the first `n` bytes by moving the others to the front. */
    method Shift(n: nat)
      requires Valid() && n <= length
      modifies this`length, kept
      ensures Valid() && kept[..length] == old(kept[n..length])
    {
      ghost var before := kept[..];
      var rest := length - n;
      var i := 0;
      while i < rest
        invariant 0 <= i <= rest && length == old(length)
        invariant forall k :: 0 <= k < i ==> kept[k] == before[n + k]
        invariant forall k :: i <= k < kept.Length ==> kept[k] == before[k]
      {
        kept[i] := kept[n + i];
        i := i + 1;
      }
      assert kept[..rest] == before[n..length] == old(kept[n..length]);
      length := rest;
    }

    /** The handling of the frame that begins at `i`. */
    method TakeFrame(i: nat)
      requires Valid() && i + FRAME <= length
      modifies this`valid, this`newMessage, this`validityTimer, received
      ensures Valid() && Contents() == Take(CRC_CHECK, old(Contents()), i)
    {
      assert kept[..length][i..i + FRAME] == kept[i..i + FRAME];
      var good := FrameFits(i);
      if good {
        DecodeAt(i);
        valid, newMessage, validityTimer := true, true, 0;
      }
    }

    /** The search for the last frame, from the back of the buffer to its front. */
    method SearchBackwards() returns (end: nat)
      requires Valid() && length >= FRAME
      modifies this`valid, this`newMessage, this`validityTimer, received
      ensures Valid()
      ensures var s := old(Contents()); var last := LastHeader(s.buffer, |s.buffer| - FRAME);
        if last < 0 then end == 0 && Contents() == s else end == last + FRAME && Contents() == Take(CRC_CHECK, s, last)
    {
      ghost var s := Contents();
      end := 0;
      var i := length - FRAME;
      SearchedStart(s);
      while i >= 0
        invariant -1 <= i <= |s.buffer| - FRAME && Valid() && length == |s.buffer|
        invariant Searched(s, Contents(), i, end)
        decreases i
      {
        if end == 0 {
          SearchedHere(s, i);
          var header := IsHeader(i);
          if header {
            TakeFrame(i);
            end := i + FRAME;
          }
        } else {
          SearchedOn(s, Contents(), i, end);
        }
        i := i - 1;
      }
    }

    method IsHeader(i: nat) returns (header: bool)
      requires Valid() && i + FRAME <= length
      ensures header == HeaderAt(Contents().buffer, i)
    {
      header := kept[i] == 0x20 && kept[i + 1] == 0x4E;
    }

    /** The search, and the shift after it. */
    method SearchFrame()
      requires Valid()
      modifies this`length, this`valid, this`newMessage, this`validityTimer, kept, received
      ensures Valid() && Contents() == Search(CRC_CHECK, old(Contents()))
    {
      if length < FRAME {
        return;
      }
      ghost var s := Contents();
      var end := SearchBackwards();
      if end > 0 {
        ghost var t := Contents();
        assert t.buffer[end..] == kept[end..length];
        Shift(end);
        assert Contents() == t.(buffer := t.buffer[end..]);
      }
    }

    /** The checksum test on the frame that begins at `i`. */
    method FrameFits(i: nat) returns (good: bool)
      requires Valid() && i + FRAME <= length
      ensures good == CRC_CHECK(kept[i..i + FRAME])
    {
      ghost var frame := kept[i..i + FRAME];
      var crc := ComputeBitwise(kept[i..i + 14]);
      assert frame[..14] == kept[i..i + 14];
      good := crc == WordOf(kept[i + 15], kept[i + 14]);
    }

    /** `rq_com_listen_stream`; `chunk` is what the port delivers, never more than the buffer takes. */
    method ListenStream(chunk: seq<byte>)
      requires Valid() && |chunk| <= BUFFER_SIZE
      modifies this, incoming, kept, received, offset
      ensures Valid() && Contents() == Listen(CRC_CHECK, old(Contents()), chunk)
    {
      TickTimers();
      ReadPort(chunk);
      if |chunk| > 0 {
        detected := true;
        detectionTimer := 0;
      }
      Append(|chunk|);
      ClearIncoming();
      if |chunk| >= 1 {
        SearchFrame();
      } else {
        assert kept[..length] == old(kept[..length]);
      }
    }

    /** What the port delivers ends up in the incoming buffer. */
    method ReadPort(chunk: seq<byte>)
      requires Valid() && |chunk| <= BUFFER_SIZE
      modifies incoming
      ensures incoming[..|chunk|] == chunk
    {
      forall i | 0 <= i < |chunk| {
        incoming[i] := chunk[i];
      }
    }

    method ClearIncoming()
      modifies incoming
    {
      forall i | 0 <= i < incoming.Length {
        incoming[i] := 0;
      }
    }
  }
}
