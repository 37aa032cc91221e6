/** The bit layout of the two sixteen-byte process images. */
module ProcessImage {
  import opened Messages
  import opened Wrappers

  datatype PackError = ModeOutOfRange

  type Image = image: seq<uint8> | |image| == 16 witness seq(16, _ => 0)

  function Flag(on: bool, mask: bv8): bv8 {
    if on then mask else 0
  }

  function ActionFlags(activate: bool, mode: bv8, goTo: bool, release: bool): bv8 {
    Flag(activate, 0x01) | ((mode & 0x03) << 1) | Flag(goTo, 0x08) | Flag(release, 0x10)
  }

  function OptionFlags(glove: bool, fingers: bool, scissor: bool): bv8 {
    Flag(glove, 0x01) | Flag(fingers, 0x04) | Flag(scissor, 0x08)
  }

  function ActionBits(r: Request): uint8 {
    ActionFlags(r.activate, r.mode as bv8, r.goTo, r.automaticRelease) as int
  }

  function OptionBits(r: Request): uint8 {
    OptionFlags(r.gloveMode, r.individualFingers, r.individualScissor) as int
  }

  predicate Packable(r: Request) {
    r.mode <= 3
  }

  function PackCommand(r: Request): Result<Image, PackError> {
    if !Packable(r) then Failure(ModeOutOfRange)
    else
      Success([
        ActionBits(r), OptionBits(r), 0,
        r.a.position, r.a.speed, r.a.force,
        r.b.position, r.b.speed, r.b.force,
        r.c.position, r.c.speed, r.c.force,
        r.scissor.position, r.scissor.speed, r.scissor.force, 0])
  }

  /** The two-bit field of a byte that starts at a bit. */
  function Field(x: uint8, shift: nat): uint8
    requires shift < 8
  {
    ((x as bv8 >> shift) & 0x03) as int
  }

  predicate Has(b: bv8, mask: bv8) {
    b & mask != 0
  }

  predicate Bit(x: uint8, mask: bv8) {
    Has(x as bv8, mask)
  }

  function UnpackStatus(image: Image): Device {
    Device(
      Bit(image[0], 0x01), Field(image[0], 1), Bit(image[0], 0x08), Field(image[0], 4), Field(image[0], 6), image[2],
      Reading(Field(image[1], 0), image[3], image[4], image[5]),
      Reading(Field(image[1], 2), image[6], image[7], image[8]),
      Reading(Field(image[1], 4), image[9], image[10], image[11]),
      Reading(Field(image[1], 6), image[12], image[13], image[14]))
  }

  // ---------------------------------------------------------------- the gripper's side of the layout

  /** How the gripper reads the command registers. */
  function DecodeCommand(image: Image): Request {
    Request(
      Bit(image[0], 0x01), Field(image[0], 1), Bit(image[0], 0x08), Bit(image[0], 0x10),
      Bit(image[1], 0x01), Bit(image[1], 0x04), Bit(image[1], 0x08),
      Axis(image[3], image[4], image[5]), Axis(image[6], image[7], image[8]),
      Axis(image[9], image[10], image[11]), Axis(image[12], image[13], image[14]))
  }

  function QuadBits(w: bv8, x: bv8, y: bv8, z: bv8): bv8 {
    w | (x << 2) | (y << 4) | (z << 6)
  }

  function GripperBits(activated: bool, mode: bv8, goTo: bool, initialization: bv8, motion: bv8): bv8 {
    Flag(activated, 0x01) | (mode << 1) | Flag(goTo, 0x08) | (initialization << 4) | (motion << 6)
  }

  function GripperBitsOf(d: Device): bv8 {
    GripperBits(d.activated, d.mode as bv8, d.goTo, d.initialization as bv8, d.motion as bv8)
  }

  /** Four two-bit fields in one byte, the first in the lowest bits. */
  function Quad(w: uint8, x: uint8, y: uint8, z: uint8): uint8 {
    QuadBits(w as bv8, x as bv8, y as bv8, z as bv8) as int
  }

  /** How the gripper fills the status registers. */
  function EncodeStatus(d: Device): Image {
    [GripperBitsOf(d) as int,
     Quad(d.a.contact, d.b.contact, d.c.contact, d.scissor.contact), d.fault,
     d.a.requested, d.a.actual, d.a.current, d.b.requested, d.b.actual, d.b.current,
     d.c.requested, d.c.actual, d.c.current, d.scissor.requested, d.scissor.actual, d.scissor.current, 0]
  }

  /** Every two-bit field holds two bits. */
  predicate InRange(d: Device) {
    && d.mode < 4 && d.initialization < 4 && d.motion < 4
    && d.a.contact < 4 && d.b.contact < 4 && d.c.contact < 4 && d.scissor.contact < 4
  }
}

/** What the layout keeps. */
module ProcessImageProofs {
  import opened Bytes
  import opened Messages
  import opened ProcessImage
  import opened Wrappers

  lemma SmallField(n: uint8)
    requires n < 4
    ensures n as bv8 & 0x03 == n as bv8 && n as bv8 < 4 && (n as bv8) as int == n
  {
    assert n == 0 || n == 1 || n == 2 || n == 3;
  }

  lemma ActionFlagsRead(activate: bool, mode: bv8, goTo: bool, release: bool, x: bv8)
    requires mode < 4 && x == ActionFlags(activate, mode, goTo, release)
    ensures activate == Has(x, 0x01) && goTo == Has(x, 0x08) && release == Has(x, 0x10)
    ensures (x >> 1) & 0x03 == mode
  {
  }

  lemma OptionFlagsRead(glove: bool, fingers: bool, scissor: bool, x: bv8)
    requires x == OptionFlags(glove, fingers, scissor)
    ensures glove == Has(x, 0x01) && fingers == Has(x, 0x04) && scissor == Has(x, 0x08)
  {
  }

  lemma GripperBitsRead(activated: bool, mode: bv8, goTo: bool, initialization: bv8, motion: bv8, x: bv8)
    requires mode < 4 && initialization < 4 && motion < 4
    requires x == GripperBits(activated, mode, goTo, initialization, motion)
    ensures activated == Has(x, 0x01) && goTo == Has(x, 0x08)
    ensures (x >> 1) & 0x03 == mode && (x >> 4) & 0x03 == initialization && (x >> 6) & 0x03 == motion
  {
  }

  lemma QuadBitsRead(a: bv8, b: bv8, c: bv8, d: bv8, x: bv8)
    requires a < 4 && b < 4 && c < 4 && d < 4 && x == QuadBits(a, b, c, d)
    ensures (x >> 0) & 0x03 == a && (x >> 2) & 0x03 == b && (x >> 4) & 0x03 == c && (x >> 6) & 0x03 == d
  {
  }

  lemma FieldOf(x: bv8, shift: nat, n: uint8)
    requires shift < 8 && n < 4 && (x >> shift) & 0x03 == n as bv8
    ensures Field(x as int, shift) == n
  {
    SmallField(n);
    BackToByte(x);
  }

  lemma ActionByteRead(r: Request)
    requires r.mode < 4
    ensures Bit(ActionBits(r), 0x01) == r.activate && Bit(ActionBits(r), 0x08) == r.goTo
    ensures Bit(ActionBits(r), 0x10) == r.automaticRelease && Field(ActionBits(r), 1) == r.mode
  {
    SmallField(r.mode);
    var x := ActionFlags(r.activate, r.mode as bv8, r.goTo, r.automaticRelease);
    BackToByte(x);
    ActionFlagsRead(r.activate, r.mode as bv8, r.goTo, r.automaticRelease, x);
    FieldOf(x, 1, r.mode);
  }

  lemma OptionByteRead(r: Request)
    ensures Bit(OptionBits(r), 0x01) == r.gloveMode && Bit(OptionBits(r), 0x04) == r.individualFingers
    ensures Bit(OptionBits(r), 0x08) == r.individualScissor
  {
    var x := OptionFlags(r.gloveMode, r.individualFingers, r.individualScissor);
    BackToByte(x);
    OptionFlagsRead(r.gloveMode, r.individualFingers, r.individualScissor, x);
  }

  lemma GripperBitsOfRead(d: Device, x: bv8)
    requires InRange(d) && x == GripperBitsOf(d)
    ensures d.activated == Has(x, 0x01) && d.goTo == Has(x, 0x08)
    ensures (x >> 1) & 0x03 == d.mode as bv8
    ensures (x >> 4) & 0x03 == d.initialization as bv8
    ensures (x >> 6) & 0x03 == d.motion as bv8
  {
    SmallField(d.mode);
    SmallField(d.initialization);
    SmallField(d.motion);
    GripperBitsRead(d.activated, d.mode as bv8, d.goTo, d.initialization as bv8, d.motion as bv8, x);
  }

  lemma BitOf(x: bv8, mask: bv8, on: bool)
    requires on == Has(x, mask)
    ensures Bit(x as int, mask) == on
  {
    BackToByte(x);
  }

  lemma GripperByteRead(d: Device, x: bv8)
    requires InRange(d) && x == GripperBitsOf(d)
    ensures Bit(x as int, 0x01) == d.activated && Field(x as int, 1) == d.mode && Bit(x as int, 0x08) == d.goTo
    ensures Field(x as int, 4) == d.initialization && Field(x as int, 6) == d.motion
  {
    GripperBitsOfRead(d, x);
    BitOf(x, 0x01, d.activated);
    BitOf(x, 0x08, d.goTo);
    FieldOf(x, 1, d.mode);
    FieldOf(x, 4, d.initialization);
    FieldOf(x, 6, d.motion);
  }

  lemma QuadRead(a: uint8, b: uint8, c: uint8, d: uint8)
    requires a < 4 && b < 4 && c < 4 && d < 4
    ensures var x := Quad(a, b, c, d); Field(x, 0) == a && Field(x, 2) == b && Field(x, 4) == c && Field(x, 6) == d
  {
    SmallField(a);
    SmallField(b);
    SmallField(c);
    SmallField(d);
    var x := QuadBits(a as bv8, b as bv8, c as bv8, d as bv8);
    QuadBitsRead(a as bv8, b as bv8, c as bv8, d as bv8, x);
    FieldOf(x, 0, a);
    FieldOf(x, 2, b);
    FieldOf(x, 4, c);
    FieldOf(x, 6, d);
    hide Field, QuadBits;
  }

  /** The gripper reads back exactly the request that was packed; only a mode above 3 is refused. */
  lemma PackRoundTrip(r: Request)
    ensures PackCommand(r).Failure? <==> r.mode > 3
    ensures PackCommand(r).Success? ==> DecodeCommand(PackCommand(r).value) == r
  {
    if r.mode <= 3 {
      ActionByteRead(r);
      OptionByteRead(r);
    }
  }

  /** No two requests share an image. */
  lemma PackInjective(r: Request, s: Request)
    requires PackCommand(r).Success? && PackCommand(r) == PackCommand(s)
    ensures r == s
  {
    PackRoundTrip(r);
    PackRoundTrip(s);
  }

  /** A device state with two-bit fields survives being encoded by the gripper and unpacked by the driver. */
  lemma StatusRoundTrip(d: Device)
    requires InRange(d)
    ensures UnpackStatus(EncodeStatus(d)) == d
  {
    GripperByteRead(d, GripperBitsOf(d));
    QuadRead(d.a.contact, d.b.contact, d.c.contact, d.scissor.contact);
  }

  lemma FieldInRange(x: uint8, shift: nat)
    requires shift < 8
    ensures Field(x, shift) < 4
  {
    LowBitsSmall((x as bv8) >> shift);
  }

  lemma LowBitsSmall(b: bv8)
    ensures (b & 0x03) as int < 4
  {
    var low := b & 0x03;
    assert low == 0 || low == 1 || low == 2 || low == 3;
  }

  /** Whatever the registers hold, the unpacked two-bit fields hold two bits. */
  lemma UnpackInRange(image: Image)
    ensures InRange(UnpackStatus(image))
  {
    FieldInRange(image[0], 1);
    FieldInRange(image[0], 4);
    FieldInRange(image[0], 6);
    FieldInRange(image[1], 0);
    FieldInRange(image[1], 2);
    FieldInRange(image[1], 4);
    FieldInRange(image[1], 6);
  }

  // ---------------------------------------------------------------- the bytes as numbers

  function One(on: bool): nat {
    if on then 1 else 0
  }

  lemma TwoBitFields(x: bv8)
    ensures x as int == (x & 3) as int + 4 * ((x >> 2) & 3) as int + 16 * ((x >> 4) & 3) as int + 64 * ((x >> 6) & 3) as int
  {
  }

  lemma FlagsAndFields(x: bv8)
    ensures x as int ==
            One(Has(x, 0x01)) + 2 * ((x >> 1) & 3) as int + 8 * One(Has(x, 0x08))
            + 16 * ((x >> 4) & 3) as int + 64 * ((x >> 6) & 3) as int
  {
  }

  lemma ActionFlagsHigh(activate: bool, mode: bv8, goTo: bool, release: bool, x: bv8)
    requires mode < 4 && x == ActionFlags(activate, mode, goTo, release)
    ensures ((x >> 4) & 3) as int == One(release) && (x >> 6) & 3 == 0
  {
  }

  lemma OptionFlagsSum(glove: bool, fingers: bool, scissor: bool)
    ensures OptionFlags(glove, fingers, scissor) as int == One(glove) + 4 * One(fingers) + 8 * One(scissor)
  {
  }

  lemma ActionByte(r: Request)
    requires r.mode <= 3
    ensures ActionBits(r) == One(r.activate) + 2 * r.mode + 8 * One(r.goTo) + 16 * One(r.automaticRelease)
  {
    SmallField(r.mode);
    var x := ActionFlags(r.activate, r.mode as bv8, r.goTo, r.automaticRelease);
    ActionFlagsRead(r.activate, r.mode as bv8, r.goTo, r.automaticRelease, x);
    ActionFlagsHigh(r.activate, r.mode as bv8, r.goTo, r.automaticRelease, x);
    FlagsAndFields(x);
    hide ActionFlags, Has;
  }

  lemma OptionByte(r: Request)
    ensures OptionBits(r) == One(r.gloveMode) + 4 * One(r.individualFingers) + 8 * One(r.individualScissor)
  {
    OptionFlagsSum(r.gloveMode, r.individualFingers, r.individualScissor);
    hide OptionFlags;
  }

  /** The sixteen bytes of every packed command, as numbers: flags and mode in their places, three bytes an axis. */
  lemma PackedBytes(r: Request)
    requires r.mode <= 3
    ensures PackCommand(r) == Success([
              One(r.activate) + 2 * r.mode + 8 * One(r.goTo) + 16 * One(r.automaticRelease),
              One(r.gloveMode) + 4 * One(r.individualFingers) + 8 * One(r.individualScissor),
              0,
              r.a.position, r.a.speed, r.a.force, r.b.position, r.b.speed, r.b.force,
              r.c.position, r.c.speed, r.c.force, r.scissor.position, r.scissor.speed, r.scissor.force,
              0])
  {
    ActionByte(r);
    OptionByte(r);
    hide ActionBits, OptionBits, One;
  }

  lemma FieldIs(x: uint8, shift: nat, b: bv8)
    requires shift < 8 && b == x as bv8
    ensures Field(x, shift) == ((b >> shift) & 3) as int
  {
  }

  lemma BitIs(x: uint8, mask: bv8, b: bv8, n: nat)
    requires b == x as bv8 && n == One(Has(b, mask))
    ensures One(Bit(x, mask)) == n
  {
  }

  lemma StatusByte(x: uint8)
    ensures One(Bit(x, 0x01)) + 2 * Field(x, 1) + 8 * One(Bit(x, 0x08)) + 16 * Field(x, 4) + 64 * Field(x, 6) == x
  {
    var b := x as bv8;
    ByteValue(x, b);
    FlagsAndFields(b);
    BitIs(x, 0x01, b, One(Has(b, 0x01)));
    BitIs(x, 0x08, b, One(Has(b, 0x08)));
    FieldIs(x, 1, b);
    FieldIs(x, 4, b);
    FieldIs(x, 6, b);
    hide *;
  }

  lemma ContactByte(x: uint8)
    ensures Field(x, 0) + 4 * Field(x, 2) + 16 * Field(x, 4) + 64 * Field(x, 6) == x
  {
    var b := x as bv8;
    ByteValue(x, b);
    TwoBitFields(b);
    FieldIs(x, 0, b);
    FieldIs(x, 2, b);
    FieldIs(x, 4, b);
    FieldIs(x, 6, b);
    hide *;
  }

  /** What is unpacked from any sixteen bytes, said by what the fields add up to; every field is below 4 by `UnpackInRange`. */
  lemma UnpackedBytes(image: Image)
    ensures var d := UnpackStatus(image);
      && One(d.activated) + 2 * d.mode + 8 * One(d.goTo) + 16 * d.initialization + 64 * d.motion == image[0]
      && d.a.contact + 4 * d.b.contact + 16 * d.c.contact + 64 * d.scissor.contact == image[1]
      && d.fault == image[2]
      && [d.a.requested, d.a.actual, d.a.current, d.b.requested, d.b.actual, d.b.current] == image[3..9]
      && [d.c.requested, d.c.actual, d.c.current, d.scissor.requested, d.scissor.actual, d.scissor.current] == image[9..15]
  {
    StatusByte(image[0]);
    ContactByte(image[1]);
    hide Field, Bit;
  }
}
