/**
 * The table-driven CRC of the two-finger gripper driver. The two tables of 256 bytes are laid out as
 * in the source, in 32 rows of eight; the row is selected by the upper five bits of the index.
 */
module CrcTables {
  import opened Crc
  import opened CrcRegister
  import opened Folds

  /** `kCRCHiTable`. */
  function HiRow(r: byte): (row: seq<byte>)
    requires r < 32
    ensures |row| == 8
  {
    match r
    case 0 => [0x00, 0xC1, 0x81, 0x40, 0x01, 0xC0, 0x80, 0x41]
    case 1 => [0x01, 0xC0, 0x80, 0x41, 0x00, 0xC1, 0x81, 0x40]
    case 2 => [0x01, 0xC0, 0x80, 0x41, 0x00, 0xC1, 0x81, 0x40]
    case 3 => [0x00, 0xC1, 0x81, 0x40, 0x01, 0xC0, 0x80, 0x41]
    case 4 => [0x01, 0xC0, 0x80, 0x41, 0x00, 0xC1, 0x81, 0x40]
    case 5 => [0x00, 0xC1, 0x81, 0x40, 0x01, 0xC0, 0x80, 0x41]
    case 6 => [0x00, 0xC1, 0x81, 0x40, 0x01, 0xC0, 0x80, 0x41]
    case 7 => [0x01, 0xC0, 0x80, 0x41, 0x00, 0xC1, 0x81, 0x40]
    case 8 => [0x01, 0xC0, 0x80, 0x41, 0x00, 0xC1, 0x81, 0x40]
    case 9 => [0x00, 0xC1, 0x81, 0x40, 0x01, 0xC0, 0x80, 0x41]
    case 10 => [0x00, 0xC1, 0x81, 0x40, 0x01, 0xC0, 0x80, 0x41]
    case 11 => [0x01, 0xC0, 0x80, 0x41, 0x00, 0xC1, 0x81, 0x40]
    case 12 => [0x00, 0xC1, 0x81, 0x40, 0x01, 0xC0, 0x80, 0x41]
    case 13 => [0x01, 0xC0, 0x80, 0x41, 0x00, 0xC1, 0x81, 0x40]
    case 14 => [0x01, 0xC0, 0x80, 0x41, 0x00, 0xC1, 0x81, 0x40]
    case 15 => [0x00, 0xC1, 0x81, 0x40, 0x01, 0xC0, 0x80, 0x41]
    case 16 => [0x01, 0xC0, 0x80, 0x41, 0x00, 0xC1, 0x81, 0x40]
    case 17 => [0x00, 0xC1, 0x81, 0x40, 0x01, 0xC0, 0x80, 0x41]
    case 18 => [0x00, 0xC1, 0x81, 0x40, 0x01, 0xC0, 0x80, 0x41]
    case 19 => [0x01, 0xC0, 0x80, 0x41, 0x00, 0xC1, 0x81, 0x40]
    case 20 => [0x00, 0xC1, 0x81, 0x40, 0x01, 0xC0, 0x80, 0x41]
    case 21 => [0x01, 0xC0, 0x80, 0x41, 0x00, 0xC1, 0x81, 0x40]
    case 22 => [0x01, 0xC0, 0x80, 0x41, 0x00, 0xC1, 0x81, 0x40]
    case 23 => [0x00, 0xC1, 0x81, 0x40, 0x01, 0xC0, 0x80, 0x41]
    case 24 => [0x00, 0xC1, 0x81, 0x40, 0x01, 0xC0, 0x80, 0x41]
    case 25 => [0x01, 0xC0, 0x80, 0x41, 0x00, 0xC1, 0x81, 0x40]
    case 26 => [0x01, 0xC0, 0x80, 0x41, 0x00, 0xC1, 0x81, 0x40]
    case 27 => [0x00, 0xC1, 0x81, 0x40, 0x01, 0xC0, 0x80, 0x41]
    case 28 => [0x01, 0xC0, 0x80, 0x41, 0x00, 0xC1, 0x81, 0x40]
    case 29 => [0x00, 0xC1, 0x81, 0x40, 0x01, 0xC0, 0x80, 0x41]
    case 30 => [0x00, 0xC1, 0x81, 0x40, 0x01, 0xC0, 0x80, 0x41]
    case _ => [0x01, 0xC0, 0x80, 0x41, 0x00, 0xC1, 0x81, 0x40]
  }

  /** `kCRCLoTable`. */
  function LoRow(r: byte): (row: seq<byte>)
    requires r < 32
    ensures |row| == 8
  {
    match r
    case 0 => [0x00, 0xC0, 0xC1, 0x01, 0xC3, 0x03, 0x02, 0xC2]
    case 1 => [0xC6, 0x06, 0x07, 0xC7, 0x05, 0xC5, 0xC4, 0x04]
    case 2 => [0xCC, 0x0C, 0x0D, 0xCD, 0x0F, 0xCF, 0xCE, 0x0E]
    case 3 => [0x0A, 0xCA, 0xCB, 0x0B, 0xC9, 0x09, 0x08, 0xC8]
    case 4 => [0xD8, 0x18, 0x19, 0xD9, 0x1B, 0xDB, 0xDA, 0x1A]
    case 5 => [0x1E, 0xDE, 0xDF, 0x1F, 0xDD, 0x1D, 0x1C, 0xDC]
    case 6 => [0x14, 0xD4, 0xD5, 0x15, 0xD7, 0x17, 0x16, 0xD6]
    case 7 => [0xD2, 0x12, 0x13, 0xD3, 0x11, 0xD1, 0xD0, 0x10]
    case 8 => [0xF0, 0x30, 0x31, 0xF1, 0x33, 0xF3, 0xF2, 0x32]
    case 9 => [0x36, 0xF6, 0xF7, 0x37, 0xF5, 0x35, 0x34, 0xF4]
    case 10 => [0x3C, 0xFC, 0xFD, 0x3D, 0xFF, 0x3F, 0x3E, 0xFE]
    case 11 => [0xFA, 0x3A, 0x3B, 0xFB, 0x39, 0xF9, 0xF8, 0x38]
    case 12 => [0x28, 0xE8, 0xE9, 0x29, 0xEB, 0x2B, 0x2A, 0xEA]
    case 13 => [0xEE, 0x2E, 0x2F, 0xEF, 0x2D, 0xED, 0xEC, 0x2C]
    case 14 => [0xE4, 0x24, 0x25, 0xE5, 0x27, 0xE7, 0xE6, 0x26]
    case 15 => [0x22, 0xE2, 0xE3, 0x23, 0xE1, 0x21, 0x20, 0xE0]
    case 16 => [0xA0, 0x60, 0x61, 0xA1, 0x63, 0xA3, 0xA2, 0x62]
    case 17 => [0x66, 0xA6, 0xA7, 0x67, 0xA5, 0x65, 0x64, 0xA4]
    case 18 => [0x6C, 0xAC, 0xAD, 0x6D, 0xAF, 0x6F, 0x6E, 0xAE]
    case 19 => [0xAA, 0x6A, 0x6B, 0xAB, 0x69, 0xA9, 0xA8, 0x68]
    case 20 => [0x78, 0xB8, 0xB9, 0x79, 0xBB, 0x7B, 0x7A, 0xBA]
    case 21 => [0xBE, 0x7E, 0x7F, 0xBF, 0x7D, 0xBD, 0xBC, 0x7C]
    case 22 => [0xB4, 0x74, 0x75, 0xB5, 0x77, 0xB7, 0xB6, 0x76]
    case 23 => [0x72, 0xB2, 0xB3, 0x73, 0xB1, 0x71, 0x70, 0xB0]
    case 24 => [0x50, 0x90, 0x91, 0x51, 0x93, 0x53, 0x52, 0x92]
    case 25 => [0x96, 0x56, 0x57, 0x97, 0x55, 0x95, 0x94, 0x54]
    case 26 => [0x9C, 0x5C, 0x5D, 0x9D, 0x5F, 0x9F, 0x9E, 0x5E]
    case 27 => [0x5A, 0x9A, 0x9B, 0x5B, 0x99, 0x59, 0x58, 0x98]
    case 28 => [0x88, 0x48, 0x49, 0x89, 0x4B, 0x8B, 0x8A, 0x4A]
    case 29 => [0x4E, 0x8E, 0x8F, 0x4F, 0x8D, 0x4D, 0x4C, 0x8C]
    case 30 => [0x44, 0x84, 0x85, 0x45, 0x87, 0x47, 0x46, 0x86]
    case _ => [0x82, 0x42, 0x43, 0x83, 0x41, 0x81, 0x80, 0x40]
  }

  function HiEntry(index: byte): byte {
    HiRow(index >> 3)[(index & 7) as int]
  }

  function LoEntry(index: byte): byte {
    LoRow(index >> 3)[(index & 7) as int]
  }

  /** The registers that eight shifts make of 0, ..., 7. */
  const FIRST_ROW: seq<word> := [0, 0xC0C1, 0xC181, 0x0140, 0xC301, 0x03C0, 0x0280, 0xC241]

  /** Eight neighbouring entries of both tables, where `x` is the register for the first of them. */
  ghost predicate EntryCorrect(x: word, y: word, hi: byte, lo: byte) {
    hi == LowByte(XorWords(x, y)) && lo == HighByte(XorWords(x, y))
  }

  ghost predicate RowCorrect(x: word, hi: seq<byte>, lo: seq<byte>) {
    && hi == [LowByte(x), LowByte(x ^ 0xC0C1), LowByte(x ^ 0xC181), LowByte(x ^ 0x0140),
              LowByte(x ^ 0xC301), LowByte(x ^ 0x03C0), LowByte(x ^ 0x0280), LowByte(x ^ 0xC241)]
    && lo == [HighByte(x), HighByte(x ^ 0xC0C1), HighByte(x ^ 0xC181), HighByte(x ^ 0x0140),
              HighByte(x ^ 0xC301), HighByte(x ^ 0x03C0), HighByte(x ^ 0x0280), HighByte(x ^ 0xC241)]
  }

  lemma RowEntry(x: word, y: word, hi: seq<byte>, lo: seq<byte>, k: byte)
    requires k < 8 && RowCorrect(x, hi, lo) && y == FIRST_ROW[k as int]
    ensures EntryCorrect(x, y, hi[k as int], lo[k as int])
  {
    if k == 0 {} else if k == 1 {} else if k == 2 {} else if k == 3 {}
    else if k == 4 {} else if k == 5 {} else if k == 6 {} else { assert k == 7; }
  }

  ghost predicate RowCorrectAt(r: byte)
    requires r < 32
  {
    RowCorrect(BitSteps((r as word) << 3, 8), HiRow(r), LoRow(r))
  }

  lemma Row0() ensures RowCorrectAt(0) {}
  lemma Row1() ensures RowCorrectAt(1) {}
  lemma Row2() ensures RowCorrectAt(2) {}
  lemma Row3() ensures RowCorrectAt(3) {}
  lemma Row4() ensures RowCorrectAt(4) {}
  lemma Row5() ensures RowCorrectAt(5) {}
  lemma Row6() ensures RowCorrectAt(6) {}
  lemma Row7() ensures RowCorrectAt(7) {}
  lemma Row8() ensures RowCorrectAt(8) {}
  lemma Row9() ensures RowCorrectAt(9) {}
  lemma Row10() ensures RowCorrectAt(10) {}
  lemma Row11() ensures RowCorrectAt(11) {}
  lemma Row12() ensures RowCorrectAt(12) {}
  lemma Row13() ensures RowCorrectAt(13) {}
  lemma Row14() ensures RowCorrectAt(14) {}
  lemma Row15() ensures RowCorrectAt(15) {}
  lemma Row16() ensures RowCorrectAt(16) {}
  lemma Row17() ensures RowCorrectAt(17) {}
  lemma Row18() ensures RowCorrectAt(18) {}
  lemma Row19() ensures RowCorrectAt(19) {}
  lemma Row20() ensures RowCorrectAt(20) {}
  lemma Row21() ensures RowCorrectAt(21) {}
  lemma Row22() ensures RowCorrectAt(22) {}
  lemma Row23() ensures RowCorrectAt(23) {}
  lemma Row24() ensures RowCorrectAt(24) {}
  lemma Row25() ensures RowCorrectAt(25) {}
  lemma Row26() ensures RowCorrectAt(26) {}
  lemma Row27() ensures RowCorrectAt(27) {}
  lemma Row28() ensures RowCorrectAt(28) {}
  lemma Row29() ensures RowCorrectAt(29) {}
  lemma Row30() ensures RowCorrectAt(30) {}
  lemma Row31() ensures RowCorrectAt(31) {}

  ghost predicate FirstRowAt(k: byte, n: nat)
    requires k < 8
  {
    BitSteps(k as word, n) == FIRST_ROW[k as int]
  }

  /** What the tables hold, in terms of registers shifted `n` times. */
  ghost predicate TablesHold(n: nat) {
    && (forall r: byte | r < 32 :: RowCorrect(BitSteps((r as word) << 3, n), HiRow(r), LoRow(r)))
    && (forall k: byte | k < 8 :: FirstRowAt(k, n))
  }

  lemma TablesHoldAtEight()
    ensures TablesHold(8)
  {
    forall r: byte | r < 32 ensures RowCorrect(BitSteps((r as word) << 3, 8), HiRow(r), LoRow(r)) {
      Row0(); Row1(); Row2(); Row3(); Row4(); Row5(); Row6(); Row7();
      Row8(); Row9(); Row10(); Row11(); Row12(); Row13(); Row14(); Row15();
      Row16(); Row17(); Row18(); Row19(); Row20(); Row21(); Row22(); Row23();
      Row24(); Row25(); Row26(); Row27(); Row28(); Row29(); Row30(); Row31();
    }
    forall k: byte | k < 8 ensures FirstRowAt(k, 8) {
      FirstRow(k);
    }
  }

  lemma FirstRow(k: byte)
    requires k < 8
    ensures FirstRowAt(k, 8)
  {
    if k == 0 {} else if k == 1 {} else if k == 2 {} else if k == 3 {}
    else if k == 4 {} else if k == 5 {} else if k == 6 {} else { assert k == 7; }
  }

  /** Entry by entry, the tables hold the low and the high byte of the shifted index. */
  lemma EntryMeaning(index: byte, n: nat)
    requires TablesHold(n)
    ensures HiEntry(index) == LowByte(BitSteps(index as word, n))
    ensures LoEntry(index) == HighByte(BitSteps(index as word, n))
  {
    assert FirstRowAt(index & 7, n);
    RowToEntry(index, BitSteps((index >> 3) as word << 3, n), BitSteps((index & 7) as word, n));
    EntryOfSum(index, HiEntry(index), LoEntry(index), n);
  }

  lemma RowToEntry(index: byte, x: word, y: word)
    requires RowCorrect(x, HiRow(index >> 3), LoRow(index >> 3)) && y == FIRST_ROW[(index & 7) as int]
    ensures EntryCorrect(x, y, HiEntry(index), LoEntry(index))
  {
    RowEntry(x, y, HiRow(index >> 3), LoRow(index >> 3), index & 7);
  }

  lemma EntryOfSum(index: byte, hi: byte, lo: byte, n: nat)
    requires EntryCorrect(BitSteps((index >> 3) as word << 3, n), BitSteps((index & 7) as word, n), hi, lo)
    ensures hi == LowByte(BitSteps(index as word, n)) && lo == HighByte(BitSteps(index as word, n))
  {
    SplitIndex(index);
    BitStepsLinear((index >> 3) as word << 3, (index & 7) as word, n);
  }

  lemma SplitIndex(index: byte)
    ensures XorWords((index >> 3) as word << 3, (index & 7) as word) == index as word
  {
  }

  /** One table step is eight bit steps. */
  lemma TableStep(c: word, b: byte, n: nat)
    requires TablesHold(n) && ComesOutAs(c & 0xFF00, HighByte(c), n)
    ensures LowByte(Intake(n).Absorb(c, b)) == XorBytes(HighByte(c), HiEntry(XorBytes(LowByte(c), b)))
    ensures HighByte(Intake(n).Absorb(c, b)) == LoEntry(XorBytes(LowByte(c), b))
  {
    EntryMeaning(XorBytes(LowByte(c), b), n);
    UpperByte(c);
    BytesOfStep(c, XorBytes(LowByte(c), b), b, n);
  }

  lemma BytesOfStep(c: word, index: byte, b: byte, n: nat)
    requires BitSteps(c & 0xFF00, n) == HighByte(c) as word && index == XorBytes(LowByte(c), b)
    ensures LowByte(Intake(n).Absorb(c, b)) == XorBytes(HighByte(c), LowByte(BitSteps(index as word, n)))
    ensures HighByte(Intake(n).Absorb(c, b)) == HighByte(BitSteps(index as word, n))
  {
    SplitRegister(c, b);
    BitStepsLinear(c & 0xFF00, index as word, n);
    BytesOfSum(HighByte(c), BitSteps(index as word, n));
  }

  lemma UpperByte(c: word)
    ensures c & 0xFF00 & 0xFF == 0 && (c & 0xFF00) >> 8 == HighByte(c) as word
  {
  }

  lemma SplitRegister(c: word, b: byte)
    ensures XorWords(c, b as word) == XorWords(c & 0xFF00, XorBytes(LowByte(c), b) as word)
  {
  }

  lemma BytesOfSum(x: byte, t: word)
    ensures LowByte(XorWords(x as word, t)) == XorBytes(x, LowByte(t))
    ensures HighByte(XorWords(x as word, t)) == HighByte(t)
  {
  }

  // ---------------------------------------------------------------- the table-driven loop

  function SwapBytes(c: word): word { (c << 8) | (c >> 8) }

  /** `compute_crc`: two byte registers walked through the tables; the result has its bytes swapped. */
  method ComputeByTable(cmd: seq<byte>) returns (crc: word)
    ensures crc == SwapBytes(Crc16(cmd))
    ensures |cmd| >= 2 ==> crc == SwapBytes(Fold(Intake(8).Absorb, 0, Complemented(cmd)))
  {
    var crcHi: byte, crcLo: byte := 0xFF, 0xFF;
    ghost var register := INITIAL;
    TablesHoldAtEight();
    var i := 0;
    while i < |cmd|
      invariant 0 <= i <= |cmd|
      invariant register == Crc16(cmd[..i])
      invariant crcLo == LowByte(register) && crcHi == HighByte(register)
    {
      StepsToOneByte(register & 0xFF00, HighByte(register));
      TableStep(register, cmd[i], 8);
      register := Intake(8).Absorb(register, cmd[i]);
      var index := XorBytes(crcLo, cmd[i]);
      crcLo := XorBytes(crcHi, HiEntry(index));
      crcHi := LoEntry(index);
      assert cmd[..i + 1][..i] == cmd[..i];
      i := i + 1;
    }
    assert cmd[..i] == cmd;
    if |cmd| >= 2 {
      StartsComplemented(cmd);
    }
    crc := (crcLo as word << 8) + crcHi as word;
    Assemble(register, crcLo, crcHi);
  }

  lemma Assemble(c: word, lo: byte, hi: byte)
    requires lo == LowByte(c) && hi == HighByte(c)
    ensures (lo as word << 8) + hi as word == SwapBytes(c)
  {
  }
}
