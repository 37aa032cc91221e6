/**
 * The shift register of CRC-16/MODBUS and the vocabulary of its theorems. The lemmas are in Crc, a
 * module above this one.
 */
module CrcRegister {
  import opened Folds

  type byte = bv8
  type word = bv16

  const INITIAL: word := 0xFFFF

  function LowByte(c: word): byte { (c & 0xFF) as byte }

  function HighByte(c: word): byte { (c >> 8) as byte }

  function XorWords(c: word, d: word): word { c ^ d }

  function XorBytes(x: byte, y: byte): byte { x ^ y }

  /** One shift of the register, with the reflected polynomial 0xA001 folded in when a one falls out. */
  function BitStep(c: word): word {
    (c >> 1) ^ (c << 15) ^ ((c & 1) << 13) ^ (c & 1)
  }

  function BitSteps(c: word, n: nat): word
    decreases n
  {
    if n == 0 then c else BitStep(BitSteps(c, n - 1))
  }

  /** The way a register takes in one byte: xor it into the low end, then shift. */
  datatype Intake = Intake(shifts: nat) {
    function Absorb(c: word, b: byte): word {
      BitSteps(XorWords(c, b as word), shifts)
    }
  }

  function Crc16(data: seq<byte>): word {
    Fold(Intake(8).Absorb, INITIAL, data)
  }

  /** A register shifted `n` times comes out as the byte `y` only if its low byte was clear and its high byte was `y`. */
  ghost predicate ComesOutAs(c: word, y: byte, n: nat) {
    BitSteps(c, n) == y as word <==> c & 0xFF == 0 && c >> 8 == y as word
  }

  /** The three bytes touched by a 16-bit error pattern that starts `s` bits into a byte, low-order bits first. */
  function BurstBytes(pattern: word, s: nat): (d: seq<byte>)
    requires s < 8
    ensures |d| == 3
  {
    var wide := (pattern as bv24) << s;
    [(wide & 0xFF) as byte, ((wide >> 8) & 0xFF) as byte, (wide >> 16) as byte]
  }

  function LowBits(s: nat): byte
    requires s < 8
  {
    (1 << s) - 1
  }

  ghost predicate Reaches(b: byte, c: word, bound: byte) {
    if b != 0 then HighByte(c) > bound else c == 0
  }

  function Pair(x: byte, y: byte): word { x as word | (y as word << 8) }
}
