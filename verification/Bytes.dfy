/** Bytes as bit vectors and as numbers. */
module Bytes {

  lemma BackToByte(b: bv8)
    ensures 0 <= b as int < 256 && (b as int) as bv8 == b
  {
  }

  lemma NextByte(b: bv8)
    requires b as int < 255
    ensures (b + 1) as int == b as int + 1
  {
  }

  /** Every number below 256 is that of a byte. */
  lemma {:induction false} SomeByte(n: nat) returns (b: bv8)
    requires n < 256
    ensures b as int == n
  {
    b := 0;
    if n > 0 {
      var c := SomeByte(n - 1);
      NextByte(c);
      b := c + 1;
    }
  }

  lemma ByteValue(n: nat, b: bv8)
    requires n < 256 && b == n as bv8
    ensures b as int == n
  {
    var c := SomeByte(n);
    BackToByte(c);
  }
}
