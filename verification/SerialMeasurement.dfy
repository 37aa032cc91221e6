/** The numbers in a sensor frame, from the bytes the sensor writes to the forces and torques the driver gives out. */
module SerialMeasurement {
  import opened Bytes
  import opened CrcRegister
  import opened ModbusFrames
  import opened ModbusRtu
  import opened SerialRecovery
  import opened SerialStream
  import opened SerialTheorems

  // ---------------------------------------------------------------- the sensor's encoding

  type int16 = v: int | -0x8000 <= v < 0x8000

  /** A signed value as the number its two bytes make up. */
  function Unsigned(v: int16): nat {
    if v < 0 then v + 0x1_0000 else v
  }

  function Low(v: int16): byte {
    (Unsigned(v) % 256) as byte
  }

  function High(v: int16): byte {
    (Unsigned(v) / 256) as byte
  }

  /** Values one after the other, each low byte first. */
  function Encoded(values: seq<int16>): seq<byte> {
    if values == [] then [] else [Low(values[0]), High(values[0])] + Encoded(values[1..])
  }

  /** The frame the sensor sends for six values. */
  function FrameOf(values: seq<int16>): seq<byte> {
    Sealed([0x20, 0x4E] + Encoded(values))
  }

  // ---------------------------------------------------------------- bytes

  lemma SignedBack(v: int16)
    ensures Signed(Low(v), High(v)) == v
  {
    var n := Unsigned(v);
    ByteValue(n % 256, Low(v));
    ByteValue(n / 256, High(v));
    SignOf(v, Low(v), High(v));
  }

  lemma SignOf(v: int16, lo: byte, hi: byte)
    requires lo as int == Unsigned(v) % 256 && hi as int == Unsigned(v) / 256
    ensures Signed(lo, hi) == v
  {
  }

  lemma {:induction false} EncodedAt(values: seq<int16>, j: nat)
    requires j < |values|
    ensures |Encoded(values)| == 2 * |values|
    ensures Encoded(values)[2 * j] == Low(values[j]) && Encoded(values)[2 * j + 1] == High(values[j])
  {
    hide Low, High;
    var more := Encoded(values[1..]);
    if j > 0 {
      EncodedAt(values[1..], j - 1);
      assert Encoded(values)[2 * j] == more[2 * (j - 1)] && Encoded(values)[2 * j + 1] == more[2 * (j - 1) + 1];
    } else if |values| > 1 {
      EncodedAt(values[1..], 0);
    }
  }

  // ---------------------------------------------------------------- what the receiver publishes

  /** The data are these six values in newtons and newton metres. */
  predicate Measures(data: seq<real>, values: seq<int16>)
    requires |values| == 6
  {
    && |data| == 6
    && data[0] == values[0] as real / 100.0 && data[1] == values[1] as real / 100.0 && data[2] == values[2] as real / 100.0
    && data[3] == values[3] as real / 1000.0 && data[4] == values[4] as real / 1000.0 && data[5] == values[5] as real / 1000.0
  }

  lemma ValueBack(frame: seq<byte>, values: seq<int16>, j: nat)
    requires |values| == 6 && j < 6 && |frame| == 16 && frame[2..14] == Encoded(values)
    ensures ValueAt(frame, j) == values[j] as real / (if j < 3 then 100.0 else 1000.0)
  {
    EncodedAt(values, j);
    assert frame[2 + 2 * j] == frame[2..14][2 * j] && frame[3 + 2 * j] == frame[2..14][2 * j + 1];
    SignedBack(values[j]);
  }

  /** Whatever surrounds them, the twelve bytes of six encoded values are read as those values. */
  lemma ValuesMeasured(frame: seq<byte>, values: seq<int16>)
    requires |values| == 6 && |frame| == 16 && frame[2..14] == Encoded(values)
    ensures Measures(ValuesOf(frame), values)
  {
    forall j | 0 <= j < 6
      ensures ValuesOf(frame)[j] == values[j] as real / (if j < 3 then 100.0 else 1000.0)
    {
      ValueBack(frame, values, j);
    }
  }

  lemma FrameValues(values: seq<int16>)
    requires |values| == 6
    ensures var frame := FrameOf(values);
      |frame| == 16 && frame[0] == 0x20 && frame[1] == 0x4E && Accepts(frame) && Measures(ValuesOf(frame), values)
  {
    var body: seq<byte> := [0x20, 0x4E] + Encoded(values);
    var frame := FrameOf(values);
    EncodedAt(values, 0);
    SealedIsAccepted(body);
    assert frame[0] == body[0] && frame[1] == body[1];
    assert frame[2..14] == body[2..] == Encoded(values);
    ValuesMeasured(frame, values);
  }

  /** The search when the last sixteen bytes of the buffer begin with the header. */
  lemma SearchesLast(check: Check, s: State, junk: seq<byte>, frame: seq<byte>)
    requires |frame| == 16 && frame[0] == 0x20 && frame[1] == 0x4E && s.buffer == junk + frame
    ensures Search(check, s) ==
            if check(frame) then s.(data := ValuesOf(frame), valid := true, newMessage := true, validityTimer := 0, buffer := [])
            else s.(buffer := [])
  {
    var k := |junk|;
    assert s.buffer[k] == frame[0] && s.buffer[k + 1] == frame[1];
    assert s.buffer[k..k + 16] == frame && s.buffer[k + 16..] == [];
    LastHeaderIs(s.buffer, |s.buffer| - FRAME, k);
  }

  lemma TickKeeps(s: State)
    ensures var t := Tick(s);
      && t.data == s.data && t.buffer == s.buffer && t.newMessage == s.newMessage && !t.zeroFlag
      && t.offset == if s.zeroFlag then s.data else s.offset
  {
  }

  lemma ListenIsSearch(check: Check, s: State, chunk: seq<byte>, t: State)
    requires chunk != [] && |s.buffer| + |chunk| <= 1024
    requires t == Hear(Tick(s), chunk).(buffer := s.buffer + chunk)
    ensures Listen(check, s, chunk) == Search(check, t)
    ensures t.detected && t.data == s.data && t.newMessage == s.newMessage && t.offset == if s.zeroFlag then s.data else s.offset
    ensures !t.zeroFlag
  {
    hide Tick, Search;
    TickKeeps(s);
  }

  /**
   * Whatever precedes it in the buffer and the chunk, a frame that ends the chunk is published: the three forces
   * are its first three values in hundredths, the torques the other three in thousandths, signs included.
   */
  lemma FrameIsPublished(s: State, chunk: seq<byte>, junk: seq<byte>, values: seq<int16>)
    requires |values| == 6 && chunk != [] && s.buffer + chunk == junk + FrameOf(values) && |s.buffer| + |chunk| <= 1024
    ensures var t := Listen(CRC_CHECK, s, chunk);
      && Measures(t.data, values) && t.buffer == []
      && t.detected && t.valid && t.newMessage
  {
    FrameValues(values);
    var t := Hear(Tick(s), chunk).(buffer := s.buffer + chunk);
    ListenIsSearch(CRC_CHECK, s, chunk, t);
    SearchesLast(CRC_CHECK, t, junk, FrameOf(values));
  }

  /** A frame at the end of the chunk whose checksum does not fit is dropped and changes no value. */
  lemma DamagedIsDropped(s: State, chunk: seq<byte>, junk: seq<byte>, frame: seq<byte>)
    requires chunk != [] && s.buffer + chunk == junk + frame && |s.buffer| + |chunk| <= 1024
    requires |frame| == 16 && frame[0] == 0x20 && frame[1] == 0x4E && !Accepts(frame)
    ensures var t := Listen(CRC_CHECK, s, chunk);
      t.data == s.data && t.newMessage == s.newMessage && t.buffer == [] && t.detected
  {
    var t := Hear(Tick(s), chunk).(buffer := s.buffer + chunk);
    ListenIsSearch(CRC_CHECK, s, chunk, t);
    SearchesLast(CRC_CHECK, t, junk, frame);
  }

  // ---------------------------------------------------------------- what the driver gives out

  /**
   * After a zero request, the next frame is given out less what the data were when the request was made;
   * without one, less the offset in effect.
   */
  lemma ReadingsAreZeroed(s: State, chunk: seq<byte>, junk: seq<byte>, values: seq<int16>, i: nat)
    requires |values| == 6 && chunk != [] && s.buffer + chunk == junk + FrameOf(values) && |s.buffer| + |chunk| <= 1024
    requires |s.data| == 6 && |s.offset| == 6 && i < 6
    ensures var value := values[i] as real / (if i < 3 then 100.0 else 1000.0);
      && (var t := Listen(CRC_CHECK, Step(CRC_CHECK, s, Zero), chunk);
          |t.data| == 6 == |t.offset| && Reading(t, i) == value - s.data[i])
      && (!s.zeroFlag ==>
            var t := Listen(CRC_CHECK, s, chunk);
            |t.data| == 6 == |t.offset| && Reading(t, i) == value - s.offset[i])
  {
    hide Listen;
    PublishedOffset(s.(zeroFlag := true), chunk, junk, values);
    PublishedOffset(s, chunk, junk, values);
  }

  lemma PublishedOffset(s: State, chunk: seq<byte>, junk: seq<byte>, values: seq<int16>)
    requires |values| == 6 && chunk != [] && s.buffer + chunk == junk + FrameOf(values) && |s.buffer| + |chunk| <= 1024
    ensures var t := Listen(CRC_CHECK, s, chunk);
      Measures(t.data, values) && t.offset == if s.zeroFlag then s.data else s.offset
  {
    FrameIsPublished(s, chunk, junk, values);
    FrameValues(values);
    var t := Hear(Tick(s), chunk).(buffer := s.buffer + chunk);
    ListenIsSearch(CRC_CHECK, s, chunk, t);
    SearchesLast(CRC_CHECK, t, junk, FrameOf(values));
  }
}
