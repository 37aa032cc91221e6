/** Left-to-right runs of a step function over a sequence, for any state and input type. */
module Folds {
  function Fold<S, B>(f: (S, B) -> S, s: S, data: seq<B>): S
    decreases |data|
  {
    if data == [] then s else f(Fold(f, s, data[..|data| - 1]), data[|data| - 1])
  }

  function Zip<B>(plus: (B, B) -> B, a: seq<B>, b: seq<B>): (z: seq<B>)
    requires |a| == |b|
    ensures |z| == |a|
    ensures forall i | 0 <= i < |z| :: z[i] == plus(a[i], b[i])
  {
    seq(|a|, i requires 0 <= i < |a| => plus(a[i], b[i]))
  }

  /** A step that respects addition of states and of inputs does so over whole sequences. */
  lemma {:induction false} FoldAdditive<S(!new), B(!new)>(
    f: (S, B) -> S, plusS: (S, S) -> S, plusB: (B, B) -> B, s: S, t: S, a: seq<B>, b: seq<B>)
    requires |a| == |b|
    requires forall s, t, x, y :: f(plusS(s, t), plusB(x, y)) == plusS(f(s, x), f(t, y))
    ensures Fold(f, plusS(s, t), Zip(plusB, a, b)) == plusS(Fold(f, s, a), Fold(f, t, b))
    decreases |a|
  {
    if a != [] {
      var n := |a| - 1;
      FoldAdditive(f, plusS, plusB, s, t, a[..n], b[..n]);
      assert Zip(plusB, a, b)[..n] == Zip(plusB, a[..n], b[..n]);
    }
  }

  lemma {:induction false} FoldAppend<S, B>(f: (S, B) -> S, s: S, a: seq<B>, b: seq<B>)
    ensures Fold(f, s, a + b) == Fold(f, Fold(f, s, a), b)
    decreases |b|
  {
    if b == [] {
      assert a + b == a;
    } else {
      var n := |b| - 1;
      FoldAppend(f, s, a, b[..n]);
      assert (a + b)[..|a + b| - 1] == a + b[..n];
    }
  }

  lemma {:induction false} FoldInjective<S(!new), B(!new)>(f: (S, B) -> S, s: S, t: S, data: seq<B>)
    requires Injective(f) && s != t
    ensures Fold(f, s, data) != Fold(f, t, data)
    decreases |data|
  {
    if data != [] {
      FoldInjective(f, s, t, data[..|data| - 1]);
    }
  }

  lemma {:induction false} FoldFixed<S, B>(f: (S, B) -> S, s: S, z: B, data: seq<B>)
    requires f(s, z) == s
    requires forall i | 0 <= i < |data| :: data[i] == z
    ensures Fold(f, s, data) == s
    decreases |data|
  {
    if data != [] {
      FoldFixed(f, s, z, data[..|data| - 1]);
    }
  }

  lemma FoldOne<S, B>(f: (S, B) -> S, s: S, x: B)
    ensures Fold(f, s, [x]) == f(s, x)
  {
    assert [x][..|[x]| - 1] == [];
  }

  lemma FoldTwo<S, B>(f: (S, B) -> S, s: S, x: B, y: B)
    ensures Fold(f, s, [x, y]) == f(f(s, x), y)
  {
    FoldOne(f, s, x);
    assert [x, y][..|[x, y]| - 1] == [x];
  }

  lemma FoldOfThree<S, B>(f: (S, B) -> S, s: S, x: B, y: B, z: B)
    ensures Fold(f, s, [x, y, z]) == f(f(f(s, x), y), z)
  {
    assert [x, y, z][..|[x, y, z]| - 1] == [x, y];
    FoldTwo(f, s, x, y);
  }

  lemma FoldThreeParts<S, B>(f: (S, B) -> S, s: S, x: seq<B>, y: seq<B>, z: seq<B>)
    ensures Fold(f, s, x + y + z) == Fold(f, Fold(f, Fold(f, s, x), y), z)
  {
    FoldAppend(f, s, x + y, z);
    FoldAppend(f, s, x, y);
  }

  /** `a` and `b` agree except at `i`, ..., `i + |d| - 1`, where they differ by `d`; `d` is `zero` past their end. */
  ghost predicate DiffersBy<B>(plus: (B, B) -> B, zero: B, a: seq<B>, b: seq<B>, i: nat, d: seq<B>) {
    && |a| == |b|
    && (forall j | 0 <= j < |a| && !(i <= j < i + |d|) :: a[j] == b[j])
    && (forall k | 0 <= k < |d| :: if i + k < |a| then plus(a[i + k], b[i + k]) == d[k] else d[k] == zero)
  }

  ghost predicate Injective<S(!new), B(!new)>(f: (S, B) -> S) {
    forall s, t, b :: s != t ==> f(s, b) != f(t, b)
  }

  /** Inputs that lead from one state to one state have a sum that leads from the clear state back to it. */
  ghost predicate ToldApart<S(!new), B(!new)>(f: (S, B) -> S, plus: (B, B) -> B, clear: S) {
    forall s, x, y {:trigger Fold(f, s, x), Fold(f, s, y)} | |x| == |y| ::
      Fold(f, s, x) == Fold(f, s, y) ==> Fold(f, clear, Zip(plus, x, y)) == clear
  }

  /** When states are told apart by the difference of their inputs, a difference in the middle survives to the end. */
  lemma DifferenceSurvives<S(!new), B(!new)>(
    f: (S, B) -> S, plus: (B, B) -> B, clear: S, zero: B, s: S, a: seq<B>, b: seq<B>, i: nat, d: seq<B>)
    requires DiffersBy(plus, zero, a, b, i, d)
    requires f(clear, zero) == clear && Fold(f, clear, d) != clear
    requires Injective(f) && ToldApart(f, plus, clear)
    ensures Fold(f, s, a) != Fold(f, s, b)
  {
    var x, y, y', z := DifferencePieces(f, plus, clear, zero, a, b, i, d);
    MiddleSurvives(f, plus, clear, s, x, y, y', z);
  }

  lemma DifferencePieces<S, B>(
    f: (S, B) -> S, plus: (B, B) -> B, clear: S, zero: B, a: seq<B>, b: seq<B>, i: nat, d: seq<B>)
    returns (x: seq<B>, y: seq<B>, y': seq<B>, z: seq<B>)
    requires DiffersBy(plus, zero, a, b, i, d)
    requires f(clear, zero) == clear && Fold(f, clear, d) != clear
    ensures a == x + y + z && b == x + y' + z
    ensures |y| == |y'| && Fold(f, clear, Zip(plus, y, y')) != clear
  {
    if i >= |a| {
      FoldFixed(f, clear, zero, d);
    } else {
      var m := if i + |d| < |a| then i + |d| else |a|;
      DifferenceSlice(plus, zero, a, b, i, d, m);
      DifferenceTrimmed(f, clear, zero, d, m - i);
      Sandwich(a, b, i, m);
      x, y, y', z := a[..i], a[i..m], b[i..m], a[m..];
    }
  }

  lemma DifferenceSlice<B>(plus: (B, B) -> B, zero: B, a: seq<B>, b: seq<B>, i: nat, d: seq<B>, m: nat)
    requires DiffersBy(plus, zero, a, b, i, d) && i < |a|
    requires m == if i + |d| < |a| then i + |d| else |a|
    ensures d[..m - i] == Zip(plus, a[i..m], b[i..m])
    ensures forall k | m - i <= k < |d| :: d[k] == zero
    ensures forall j | 0 <= j < |a| && !(i <= j < m) :: a[j] == b[j]
  {
  }

  lemma Sandwich<B>(a: seq<B>, b: seq<B>, i: nat, m: nat)
    requires |a| == |b| && i <= m <= |a|
    requires forall j | 0 <= j < |a| && !(i <= j < m) :: a[j] == b[j]
    ensures a == a[..i] + a[i..m] + a[m..]
    ensures b == a[..i] + b[i..m] + a[m..]
  {
  }

  lemma DifferenceTrimmed<S, B>(f: (S, B) -> S, clear: S, zero: B, d: seq<B>, m: nat)
    requires f(clear, zero) == clear && m <= |d| && forall k | m <= k < |d| :: d[k] == zero
    ensures Fold(f, clear, d[..m]) == clear ==> Fold(f, clear, d) == clear
  {
    FoldAppend(f, clear, d[..m], d[m..]);
    FoldFixed(f, clear, zero, d[m..]);
    assert d == d[..m] + d[m..];
  }

  lemma MiddleSurvives<S(!new), B(!new)>(
    f: (S, B) -> S, plus: (B, B) -> B, clear: S, s: S, x: seq<B>, y: seq<B>, y': seq<B>, z: seq<B>)
    requires Injective(f) && ToldApart(f, plus, clear)
    requires |y| == |y'| && Fold(f, clear, Zip(plus, y, y')) != clear
    ensures Fold(f, s, x + y + z) != Fold(f, s, x + y' + z)
  {
    FoldThreeParts(f, s, x, y, z);
    FoldThreeParts(f, s, x, y', z);
    FoldInjective(f, Fold(f, Fold(f, s, x), y), Fold(f, Fold(f, s, x), y'), z);
  }
}
