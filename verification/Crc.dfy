/**
 * CRC-16/MODBUS, in the two forms the workspace carries: the bit-by-bit loop of the force-torque
 * sensor driver here, and the table-driven loop of the two-finger gripper driver in CrcTables.
 *
 * Everything rests on one bit step of the shift register: it is linear over xor, and it never clears a
 * register that is not clear. The theorems about messages of any length lift these facts through the
 * folds. Sums are written with XorWords and XorBytes so that only the lemmas about single words look
 * at bits.
 */
module Crc {
  import opened CrcRegister
  import opened Folds

  // ---------------------------------------------------------------- the register

  lemma BitStepIsConditional(c: word)
    ensures BitStep(c) == if c & 1 == 1 then (c >> 1) ^ 0xA001 else c >> 1
  {
    if c & 1 == 1 {
    } else {
      assert c & 1 == 0;
    }
  }

  // ---------------------------------------------------------------- the bit-by-bit form

  /** The body of the inner loop of `rq_com_compute_crc`. */
  method ShiftOnce(before: word) returns (crc: word)
    ensures crc == BitStep(before)
  {
    BitStepIsConditional(before);
    if before & 1 == 1 {
      crc := (before >> 1) ^ 0xA001;
    } else {
      crc := before >> 1;
    }
  }

  /** That loop. */
  method AbsorbBitwise(before: word, b: byte) returns (crc: word)
    ensures crc == Intake(8).Absorb(before, b)
  {
    crc := XorWords(before, b as word);
    ghost var start := crc;
    var k := 0;
    while k < 8
      invariant 0 <= k <= 8
      invariant crc == BitSteps(start, k)
    {
      crc := ShiftOnce(crc);
      k := k + 1;
    }
  }

  /** `rq_com_compute_crc`: the register is shifted in place, eight times for each byte. */
  method ComputeBitwise(data: seq<byte>) returns (crc: word)
    ensures crc == Crc16(data)
    ensures |data| >= 2 ==> crc == Fold(Intake(8).Absorb, 0, Complemented(data))
  {
    crc := INITIAL;
    var j := 0;
    while j < |data|
      invariant 0 <= j <= |data|
      invariant crc == Crc16(data[..j])
    {
      crc := AbsorbBitwise(crc, data[j]);
      assert data[..j + 1][..j] == data[..j];
      j := j + 1;
    }
    assert data[..j] == data;
    if |data| >= 2 {
      StartsComplemented(data);
    }
  }

  // ---------------------------------------------------------------- linearity

  lemma BitStepLinear(c: word, d: word)
    ensures BitStep(XorWords(c, d)) == XorWords(BitStep(c), BitStep(d))
  {
  }

  lemma {:induction false} BitStepsLinear(c: word, d: word, n: nat)
    ensures BitSteps(XorWords(c, d), n) == XorWords(BitSteps(c, n), BitSteps(d, n))
    decreases n
  {
    if n > 0 {
      BitStepsLinear(c, d, n - 1);
      BitStepLinear(BitSteps(c, n - 1), BitSteps(d, n - 1));
    }
  }

  lemma BitStepsOfSum(e: word, c: word, d: word, n: nat)
    requires e == XorWords(c, d)
    ensures BitSteps(e, n) == XorWords(BitSteps(c, n), BitSteps(d, n))
  {
    BitStepsLinear(c, d, n);
  }

  lemma FourWayXor(c: word, d: word, x: byte, y: byte)
    ensures XorWords(XorWords(c, d), XorBytes(x, y) as word) ==
            XorWords(XorWords(c, x as word), XorWords(d, y as word))
  {
  }

  lemma AbsorbLinear(c: word, d: word, x: byte, y: byte, n: nat)
    ensures Intake(n).Absorb(XorWords(c, d), XorBytes(x, y)) ==
            XorWords(Intake(n).Absorb(c, x), Intake(n).Absorb(d, y))
  {
    FourWayXor(c, d, x, y);
    BitStepsOfSum(XorWords(XorWords(c, d), XorBytes(x, y) as word), XorWords(c, x as word), XorWords(d, y as word), n);
  }

  /** The register of the xor of two runs is the xor of their registers. */
  lemma RegisterLinear(c: word, d: word, a: seq<byte>, b: seq<byte>, n: nat)
    requires |a| == |b|
    ensures Fold(Intake(n).Absorb, XorWords(c, d), Zip(XorBytes, a, b)) ==
            XorWords(Fold(Intake(n).Absorb, c, a), Fold(Intake(n).Absorb, d, b))
  {
    forall c, d, x, y
      ensures Intake(n).Absorb(XorWords(c, d), XorBytes(x, y)) ==
              XorWords(Intake(n).Absorb(c, x), Intake(n).Absorb(d, y))
    {
      AbsorbLinear(c, d, x, y, n);
    }
    FoldAdditive(Intake(n).Absorb, XorWords, XorBytes, c, d, a, b);
  }

  // ---------------------------------------------------------------- a register never loses a difference

  lemma BitStepNonzero(c: word)
    requires c != 0
    ensures BitStep(c) != 0
  {
  }

  lemma {:induction false} BitStepsNonzero(c: word, n: nat)
    requires c != 0
    ensures BitSteps(c, n) != 0
    decreases n
  {
    if n > 0 {
      BitStepsNonzero(c, n - 1);
      BitStepNonzero(BitSteps(c, n - 1));
    }
  }

  lemma {:induction false} BitStepsZero(n: nat)
    ensures BitSteps(0, n) == 0
    decreases n
  {
    if n > 0 {
      BitStepsZero(n - 1);
    }
  }

  lemma XorTwice(c: word, d: word)
    ensures XorWords(XorWords(c, d), d) == c
  {
  }

  lemma XorNothing(c: word)
    ensures XorWords(0, c) == c && XorWords(c, c) == 0
  {
  }

  lemma XorZero(c: word, d: word)
    ensures XorWords(c, d) == 0 <==> c == d
  {
    XorNothing(d);
    XorTwice(c, d);
  }

  lemma SumWithSame(c: word, d: word, b: byte)
    ensures XorWords(XorWords(c, b as word), XorWords(d, b as word)) == XorWords(c, d)
  {
  }

  lemma AbsorbInjective(c: word, d: word, b: byte, n: nat)
    requires c != d
    ensures Intake(n).Absorb(c, b) != Intake(n).Absorb(d, b)
  {
    SumWithSame(c, d, b);
    XorZero(c, d);
    BitStepsNonzero(XorWords(c, d), n);
    BitStepsLinear(XorWords(c, b as word), XorWords(d, b as word), n);
    XorZero(Intake(n).Absorb(c, b), Intake(n).Absorb(d, b));
  }

  lemma IntakeInjective(n: nat)
    ensures Injective(Intake(n).Absorb)
  {
    forall c, d, b | c != d ensures Intake(n).Absorb(c, b) != Intake(n).Absorb(d, b) {
      AbsorbInjective(c, d, b, n);
    }
  }

  /** Two registers that differ stay different over any common tail of bytes. */
  lemma RegisterInjective(c: word, d: word, data: seq<byte>, n: nat)
    requires c != d
    ensures Fold(Intake(n).Absorb, c, data) != Fold(Intake(n).Absorb, d, data)
  {
    IntakeInjective(n);
    FoldInjective(Intake(n).Absorb, c, d, data);
  }

  // ---------------------------------------------------------------- what the register starts with

  /** A message with its first two bytes complemented. */
  function Complemented(data: seq<byte>): seq<byte>
    requires |data| >= 2
  {
    [XorBytes(data[0], 0xFF), XorBytes(data[1], 0xFF)] + data[2..]
  }

  lemma UpperOnes(b: byte)
    ensures XorWords(0xFFFF, b as word) == XorWords(0xFF00, XorBytes(b, 0xFF) as word)
  {
  }

  lemma LowerOnes(c: word, b: byte)
    ensures XorWords(XorWords(0x00FF, c), b as word) == XorWords(c, XorBytes(b, 0xFF) as word)
  {
  }

  lemma FirstByte(b: byte)
    ensures Intake(8).Absorb(0xFFFF, b) == XorWords(0x00FF, Intake(8).Absorb(0, XorBytes(b, 0xFF)))
  {
    var x := XorBytes(b, 0xFF) as word;
    UpperOnes(b);
    BitStepsOfSum(XorWords(0xFFFF, b as word), 0xFF00, x, 8);
    StepsToOneByte(0xFF00, 0xFF);
    XorWithZero(x);
  }

  /** A register that starts with all ones is a clear one over the message with its first two bytes complemented. */
  lemma {:induction false} StartsComplemented(data: seq<byte>)
    requires |data| >= 2
    ensures Crc16(data) == Fold(Intake(8).Absorb, 0, Complemented(data))
  {
    var x, y := XorBytes(data[0], 0xFF), XorBytes(data[1], 0xFF);
    assert data == [data[0], data[1]] + data[2..];
    FoldAppend(Intake(8).Absorb, INITIAL, [data[0], data[1]], data[2..]);
    FoldAppend(Intake(8).Absorb, 0, [x, y], data[2..]);
    FirstTwo(data[0], data[1]);
  }

  lemma {:induction false} FirstTwo(b0: byte, b1: byte)
    ensures Fold(Intake(8).Absorb, INITIAL, [b0, b1]) == Fold(Intake(8).Absorb, 0, [XorBytes(b0, 0xFF), XorBytes(b1, 0xFF)])
  {
    var x, y := XorBytes(b0, 0xFF), XorBytes(b1, 0xFF);
    FoldTwo(Intake(8).Absorb, INITIAL, b0, b1);
    FoldTwo(Intake(8).Absorb, 0, x, y);
    FirstByte(b0);
    LowerOnes(Intake(8).Absorb(0, x), b1);
  }

  lemma OnesAreShifted()
    ensures BitSteps(0xFFFF, 8) == 0x40BF
  {
    assert BitSteps(0xFFFF, 2) == 0x6FFF;
    assert BitSteps(0xFFFF, 4) == 0x4BFF;
    assert BitSteps(0xFFFF, 6) == 0x42FF;
  }

  /** A zero byte put in front of a message changes its checksum. */
  lemma LeadingZeroDetected(data: seq<byte>)
    ensures Crc16([0] + data) != Crc16(data)
  {
    FoldAppend(Intake(8).Absorb, INITIAL, [0], data);
    FoldOne(Intake(8).Absorb, INITIAL, 0);
    OnesAreShifted();
    assert XorWords(INITIAL, 0) == 0xFFFF;
    RegisterInjective(Intake(8).Absorb(INITIAL, 0), INITIAL, data, 8);
  }

  /** The register after one more byte of a message. */
  lemma {:induction false} OneMore(data: seq<byte>, b: byte, c: word, r: word) returns (more: seq<byte>)
    requires Crc16(data) == c && BitSteps(XorWords(c, b as word), 8) == r
    ensures more == data + [b] && Crc16(more) == r
  {
    more := data + [b];
    FoldAppend(Intake(8).Absorb, INITIAL, data, [b]);
    FoldOne(Intake(8).Absorb, c, b);
  }

  /** The checksum of the request for the three status registers from 0x07D0 on. */
  lemma {:induction false} KnownChecksum(message: seq<byte>)
    requires message == [0x09, 0x03, 0x07, 0xD0, 0x00, 0x03]
    ensures Crc16(message) == 0x0E04
  {
    var m := OneMore([], 0x09, INITIAL, 0x467F);
    m := OneMore(m, 0x03, 0x467F, 0xE147);
    m := OneMore(m, 0x07, 0xE147, 0xF0E0);
    m := OneMore(m, 0xD0, 0xF0E0, 0x14F0);
    m := OneMore(m, 0x00, 0x14F0, 0x4414);
    m := OneMore(m, 0x03, 0x4414, 0x0E04);
    assert m == message;
  }

  /** The checksum of a request that writes three registers from 0x03E8 on, the first one 0x0900. */
  lemma {:induction false} KnownWriteChecksum(message: seq<byte>)
    requires message == [0x09, 0x10, 0x03, 0xE8, 0x00, 0x03, 0x06, 0x09, 0x00, 0x00, 0x00, 0x00, 0x00]
    ensures Crc16(message) == 0xA973
  {
    var m := OneMore([], 0x09, INITIAL, 0x467F);
    m := OneMore(m, 0x10, 0x467F, 0x2C06);
    m := OneMore(m, 0x03, 0x2C06, 0x03EC);
    m := OneMore(m, 0xE8, 0x03EC, 0xC302);
    m := OneMore(m, 0x00, 0xC302, 0xC142);
    m := OneMore(m, 0x03, 0xC142, 0x3001);
    m := OneMore(m, 0x06, 0x3001, 0xC271);
    m := OneMore(m, 0x09, 0xC271, 0x22C2);
    m := OneMore(m, 0x00, 0x22C2, 0x91A3);
    m := OneMore(m, 0x00, 0x91A3, 0x79D1);
    m := OneMore(m, 0x00, 0x79D1, 0x5CB9);
    m := OneMore(m, 0x00, 0x5CB9, 0xB29D);
    m := OneMore(m, 0x00, 0xB29D, 0xA973);
    assert m == message;
  }

  /** Two inputs leave different registers exactly when their xor does not clear the register. */
  lemma RegisterSplits(c: word, x: seq<byte>, y: seq<byte>, n: nat)
    requires |x| == |y|
    ensures Fold(Intake(n).Absorb, c, x) == Fold(Intake(n).Absorb, c, y) <==>
            Fold(Intake(n).Absorb, 0, Zip(XorBytes, x, y)) == 0
  {
    RegisterLinear(c, c, x, y, n);
    XorZero(c, c);
    XorZero(Fold(Intake(n).Absorb, c, x), Fold(Intake(n).Absorb, c, y));
  }

  // ---------------------------------------------------------------- residue

  /** Two more bytes clear the register exactly when they are the checksum, low byte first. */
  lemma ResidueZero(data: seq<byte>, x: byte, y: byte)
    ensures Crc16(data + [x, y]) == 0 <==> x == LowByte(Crc16(data)) && y == HighByte(Crc16(data))
  {
    var c := Crc16(data);
    FoldAppend(Intake(8).Absorb, INITIAL, data, [x, y]);
    FoldTwo(Intake(8).Absorb, c, x, y);
    StepsToOneByte(XorWords(c, x as word), y);
    ResidueOfRegister(c, x, y, 8);
  }

  lemma ResidueOfRegister(c: word, x: byte, y: byte, n: nat)
    requires ComesOutAs(XorWords(c, x as word), y, n)
    ensures Intake(n).Absorb(Intake(n).Absorb(c, x), y) == 0 <==> x == LowByte(c) && y == HighByte(c)
  {
    LastByteClears(Intake(n).Absorb(c, x), y, n);
    PairOfBytes(c, x, y);
  }

  lemma LastByteClears(e: word, y: byte, n: nat)
    ensures Intake(n).Absorb(e, y) == 0 <==> e == y as word
  {
    XorZero(e, y as word);
    BitStepsZero(n);
    if XorWords(e, y as word) != 0 {
      BitStepsNonzero(XorWords(e, y as word), n);
    }
  }

  /** Eight shifts leave a value that fits in one byte only by shifting out a low byte that is clear. */
  lemma StepsToOneByte(c: word, y: byte)
    ensures ComesOutAs(c, y, 8)
  {
  }

  lemma PairOfBytes(c: word, x: byte, y: byte)
    ensures XorWords(c, x as word) & 0xFF == 0 && XorWords(c, x as word) >> 8 == y as word
            <==> x == LowByte(c) && y == HighByte(c)
  {
  }

  // ---------------------------------------------------------------- burst errors

  /** Every burst of at most 16 bits changes the checksum, wherever it falls and however long the message is. */
  lemma BurstDetected(a: seq<byte>, b: seq<byte>, i: nat, s: nat, pattern: word)
    requires s < 8 && pattern != 0
    requires DiffersBy(XorBytes, 0, a, b, i, BurstBytes(pattern, s))
    ensures Crc16(a) != Crc16(b)
  {
    var d := BurstBytes(pattern, s);
    BurstShape(s, pattern);
    BurstNotCleared(d[0], d[1], d[2], s);
    assert d == [d[0], d[1], d[2]];
    DifferenceDetected(a, b, i, d, 8);
  }

  lemma IntakeTellsApart(n: nat)
    ensures ToldApart(Intake(n).Absorb, XorBytes, 0)
  {
    forall c, x, y {:trigger Fold(Intake(n).Absorb, c, x), Fold(Intake(n).Absorb, c, y)} | |x| == |y|
      ensures Fold(Intake(n).Absorb, c, x) == Fold(Intake(n).Absorb, c, y)
              ==> Fold(Intake(n).Absorb, 0, Zip(XorBytes, x, y)) == 0
    {
      RegisterSplits(c, x, y, n);
    }
  }

  lemma DifferenceDetected(a: seq<byte>, b: seq<byte>, i: nat, d: seq<byte>, n: nat)
    requires DiffersBy(XorBytes, 0, a, b, i, d)
    requires Fold(Intake(n).Absorb, 0, d) != 0
    ensures Fold(Intake(n).Absorb, INITIAL, a) != Fold(Intake(n).Absorb, INITIAL, b)
  {
    IntakeInjective(n);
    IntakeTellsApart(n);
    XorZero(0, 0);
    BitStepsZero(n);
    DifferenceSurvives(Intake(n).Absorb, XorBytes, 0, 0, INITIAL, a, b, i, d);
  }

  lemma BurstNotCleared(b0: byte, b1: byte, b2: byte, s: nat)
    requires s < 8 && b0 & LowBits(s) == 0 && b2 <= LowBits(s) && !(b0 == b1 == b2 == 0)
    ensures Fold(Intake(8).Absorb, 0, [b0, b1, b2]) != 0
  {
    StepReaches(b0, s);
    StepsToOneByte(XorWords(BitSteps(b0 as word, 8), b1 as word), b2);
    ThreeBytesKeepApart(b0, b1, b2, LowBits(s), 8);
  }

  lemma ThreeBytesKeepApart(b0: byte, b1: byte, b2: byte, bound: byte, n: nat)
    requires Reaches(b0, BitSteps(b0 as word, n), bound) && b2 <= bound && !(b0 == b1 == b2 == 0)
    requires ComesOutAs(XorWords(BitSteps(b0 as word, n), b1 as word), b2, n)
    ensures Fold(Intake(n).Absorb, 0, [b0, b1, b2]) != 0
  {
    HighByteOutruns(BitSteps(b0 as word, n), b0, b1, b2, bound);
    FoldOfThree(Intake(n).Absorb, 0, b0, b1, b2);
    XorWithZero(b0 as word);
    LastByteClears(Intake(n).Absorb(Intake(n).Absorb(0, b0), b1), b2, n);
  }

  lemma XorWithZero(c: word)
    ensures XorWords(0, c) == c
  {
  }

  lemma BurstShape(s: nat, pattern: word)
    requires s < 8 && pattern != 0
    ensures var d := BurstBytes(pattern, s);
            d[0] & LowBits(s) == 0 && d[2] <= LowBits(s) && !(d[0] == d[1] == d[2] == 0)
  {
    if s < 4 {
      BurstShapeLow(s, pattern);
    } else {
      BurstShapeHigh(s, pattern);
    }
  }

  lemma BurstShapeLow(s: nat, pattern: word)
    requires s < 4 && pattern != 0
    ensures var d := BurstBytes(pattern, s);
            d[0] & LowBits(s) == 0 && d[2] <= LowBits(s) && !(d[0] == d[1] == d[2] == 0)
  {
    if s == 0 {} else if s == 1 {} else if s == 2 {} else { assert s == 3; }
  }

  lemma BurstShapeHigh(s: nat, pattern: word)
    requires 4 <= s < 8 && pattern != 0
    ensures var d := BurstBytes(pattern, s);
            d[0] & LowBits(s) == 0 && d[2] <= LowBits(s) && !(d[0] == d[1] == d[2] == 0)
  {
    if s == 4 {} else if s == 5 {} else if s == 6 {} else { assert s == 7; }
  }

  /** A first byte whose low bits are clear comes out above what the third byte can hold. */
  lemma StepReaches(b: byte, s: nat)
    requires s < 8 && b & LowBits(s) == 0
    ensures Reaches(b, BitSteps(b as word, 8), LowBits(s))
  {
    if s < 4 {
      StepReachesLow(b, s);
    } else {
      StepReachesHigh(b, s);
    }
  }

  lemma StepReachesLow(b: byte, s: nat)
    requires s < 4 && b & LowBits(s) == 0
    ensures Reaches(b, BitSteps(b as word, 8), LowBits(s))
  {
    if s == 0 {} else if s == 1 {} else if s == 2 {} else { assert s == 3; }
  }

  lemma StepReachesHigh(b: byte, s: nat)
    requires 4 <= s < 8 && b & LowBits(s) == 0
    ensures Reaches(b, BitSteps(b as word, 8), LowBits(s))
  {
    if s == 4 {} else if s == 5 {} else if s == 6 {} else { assert s == 7; }
  }

  lemma HighByteOutruns(c: word, b0: byte, b1: byte, b2: byte, bound: byte)
    requires Reaches(b0, c, bound)
    requires b2 <= bound && !(b0 == b1 == b2 == 0)
    ensures !(XorWords(c, b1 as word) & 0xFF == 0 && XorWords(c, b1 as word) >> 8 == b2 as word)
  {
    PairOfBytes(c, b1, b2);
  }

  /** Two messages that differ only within two neighbouring bytes never share a checksum. */
  lemma AdjacentBytesDetected(a: seq<byte>, b: seq<byte>, i: nat)
    requires |a| == |b| && a != b
    requires forall j | 0 <= j < |a| && j != i && j != i + 1 :: a[j] == b[j]
    ensures Crc16(a) != Crc16(b)
  {
    var x := if i < |a| then XorBytes(a[i], b[i]) else 0;
    var y := if i + 1 < |a| then XorBytes(a[i + 1], b[i + 1]) else 0;
    forall j | 0 <= j < |a| ensures XorBytes(a[j], b[j]) == 0 <==> a[j] == b[j] {
      XorBytesZero(a[j], b[j]);
    }
    assert x != 0 || y != 0;
    PatternOfTwo(x, y);
    BurstDetected(a, b, i, 0, Pair(x, y));
  }

  lemma XorBytesZero(x: byte, y: byte)
    ensures XorBytes(x, y) == 0 <==> x == y
  {
  }

  lemma PatternOfTwo(x: byte, y: byte)
    ensures BurstBytes(Pair(x, y), 0) == [x, y, 0]
    ensures Pair(x, y) == 0 <==> x == 0 && y == 0
  {
  }
}
