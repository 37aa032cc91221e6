/** Exact real arithmetic shared by the numeric parts: products and the two roundings of the source. */
module Rounding {

  /** The product, under a name. */
  function Times(x: real, y: real): real {
    x * y
  }

  /** The quotient, under a name. */
  function Over(x: real, y: real): real
    requires y != 0.0
  {
    x / y
  }

  function Abs(x: real): real {
    if x < 0.0 then -x else x
  }

  /** Python's `round`: to the nearest integer, halves to the even one. */
  function RoundEven(x: real): int {
    var f := x.Floor;
    var part := x - f as real;
    if part < 0.5 then f else if part > 0.5 then f + 1 else if f % 2 == 0 then f else f + 1
  }

  /** `std::lround`: to the nearest integer, halves away from zero. */
  function RoundAway(x: real): int {
    if x >= 0.0 then (x + 0.5).Floor else -((0.5 - x).Floor)
  }

  lemma RoundEvenNear(x: real)
    ensures Abs(RoundEven(x) as real - x) <= 0.5
  {
  }

  lemma RoundEvenInteger(n: int)
    ensures RoundEven(n as real) == n
  {
  }

  lemma RoundAwayNear(x: real)
    ensures Abs(RoundAway(x) as real - x) <= 0.5
  {
  }

  lemma RoundAwayNearest(x: real, n: int)
    requires Abs(x - n as real) < 0.5
    ensures RoundAway(x) == n
  {
    RoundAwayNear(x);
    assert Abs((RoundAway(x) - n) as real) < 1.0;
  }

  lemma RoundAwayMonotone(x: real, y: real)
    requires x <= y
    ensures RoundAway(x) <= RoundAway(y)
  {
  }

  /** A half goes to the even neighbour in the one, and to the one further from zero in the other. */
  lemma Halves(n: int)
    ensures RoundEven(n as real + 0.5) == if n % 2 == 0 then n else n + 1
    ensures RoundAway(n as real + 0.5) == if n >= 0 then n + 1 else n
  {
  }
}
