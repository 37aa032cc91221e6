/** Clamped piecewise-linear maps: the state publisher finds the segment by binary search, the simulator by scanning. */
module Piecewise {
  import opened Rounding
  import opened Wrappers

  datatype Map = Map(inputs: seq<real>, outputs: seq<real>)

  predicate Increasing(inputs: seq<real>) {
    forall i, j :: 0 <= i < j < |inputs| ==> inputs[i] < inputs[j]
  }

  predicate Valid(m: Map) {
    && |m.inputs| == |m.outputs| >= 2
    && Increasing(m.inputs)
  }

  // ---------------------------------------------------------------- the constructor

  datatype MapError = WrongSize | NotFinite | NotIncreasing

  /** A table entry as given; `None` stands for a value that is not finite. */
  type Entry = Option<real>

  predicate AllFinite(entries: seq<Entry>) {
    forall k :: 0 <= k < |entries| ==> entries[k].Some?
  }

  function Numbers(entries: seq<Entry>): seq<real>
    requires AllFinite(entries)
  {
    seq(|entries|, k requires 0 <= k < |entries| => entries[k].value)
  }

  /** `PiecewiseLinearMap`: succeeds exactly on tables of equal size, at least two, finite and strictly increasing. */
  method NewMap(inputs: seq<Entry>, outputs: seq<Entry>) returns (r: Result<Map, MapError>)
    ensures r.Success? <==>
              && |inputs| == |outputs| >= 2
              && AllFinite(inputs) && AllFinite(outputs) && Increasing(Numbers(inputs))
    ensures r.Success? ==> r.value == Map(Numbers(inputs), Numbers(outputs)) && Valid(r.value)
    ensures |inputs| != |outputs| || |inputs| < 2 ==> r == Failure(WrongSize)
  {
    if |inputs| < 2 || |inputs| != |outputs| {
      return Failure(WrongSize);
    }
    var index := 0;
    while index < |inputs|
      invariant 0 <= index <= |inputs|
      invariant AllFinite(inputs[..index]) && AllFinite(outputs[..index])
      invariant Increasing(Numbers(inputs[..index]))
    {
      if inputs[index].None? || outputs[index].None? {
        return Failure(NotFinite);
      }
      if index > 0 && inputs[index].value <= inputs[index - 1].value {
        assert Numbers(inputs[..index])[index - 1] == inputs[index - 1].value;
        if AllFinite(inputs) {
          assert Numbers(inputs)[index - 1] >= Numbers(inputs)[index];
        }
        return Failure(NotIncreasing);
      }
      ghost var before := Numbers(inputs[..index]);
      assert index > 0 ==> before[index - 1] == inputs[index - 1].value;
      index := index + 1;
      assert Numbers(inputs[..index]) == before + [inputs[index - 1].value];
    }
    assert inputs[..index] == inputs && outputs[..index] == outputs;
    return Success(Map(Numbers(inputs), Numbers(outputs)));
  }

  // ---------------------------------------------------------------- the value of a map

  /** The line through the ends of segment `k`, which lies between breakpoints `k - 1` and `k`. */
  function Line(m: Map, k: nat, x: real): real
    requires 0 < k < |m.inputs| == |m.outputs| && m.inputs[k - 1] != m.inputs[k]
  {
    m.outputs[k - 1] + Times(Over(x - m.inputs[k - 1], m.inputs[k] - m.inputs[k - 1]), m.outputs[k] - m.outputs[k - 1])
  }

  /** The first segment from `k` on whose right end is not below `x`. */
  function SegmentFrom(inputs: seq<real>, x: real, k: nat): (r: nat)
    requires k < |inputs| && x <= inputs[|inputs| - 1]
    ensures k <= r < |inputs| && x <= inputs[r] && (r > k ==> inputs[r - 1] < x)
    decreases |inputs| - k
  {
    if x <= inputs[k] then k else SegmentFrom(inputs, x, k + 1)
  }

  predicate Inside(m: Map, x: real)
    requires m.inputs != []
  {
    m.inputs[0] < x < m.inputs[|m.inputs| - 1]
  }

  function Segment(m: Map, x: real): (k: nat)
    requires m.inputs != [] && Inside(m, x)
    ensures 0 < k < |m.inputs| && m.inputs[k - 1] < x <= m.inputs[k]
  {
    SegmentFrom(m.inputs, x, 1)
  }

  function Value(m: Map, x: real): real
    requires |m.inputs| == |m.outputs| > 0
  {
    if x <= m.inputs[0] then m.outputs[0]
    else if x >= m.inputs[|m.inputs| - 1] then m.outputs[|m.outputs| - 1]
    else Line(m, Segment(m, x), x)
  }

  lemma LineEnds(m: Map, k: nat)
    requires Valid(m) && 0 < k < |m.inputs|
    ensures Line(m, k, m.inputs[k - 1]) == m.outputs[k - 1] && Line(m, k, m.inputs[k]) == m.outputs[k]
  {
    OverEnds(m.inputs[k] - m.inputs[k - 1], m.outputs[k] - m.outputs[k - 1]);
  }

  lemma OverEnds(w: real, d: real)
    requires w != 0.0
    ensures Times(Over(0.0, w), d) == 0.0 && Times(Over(w, w), d) == d
  {
  }

  lemma SegmentIs(m: Map, x: real, k: nat)
    requires Valid(m) && Inside(m, x) && 0 < k < |m.inputs| && m.inputs[k - 1] < x <= m.inputs[k]
    ensures Segment(m, x) == k
  {
    RightOf(m.inputs, x, Segment(m, x), k);
    RightOf(m.inputs, x, k, Segment(m, x));
  }

  lemma RightOf(inputs: seq<real>, x: real, i: nat, k: nat)
    requires Increasing(inputs) && i < |inputs| && 0 < k < |inputs| && inputs[k - 1] < x <= inputs[i]
    ensures k <= i
  {
  }

  /** The value is on the line of every segment that the point belongs to, ends included. */
  lemma OnEverySegment(m: Map, k: nat, x: real)
    requires Valid(m) && 0 < k < |m.inputs| && m.inputs[k - 1] <= x <= m.inputs[k]
    ensures Value(m, x) == Line(m, k, x)
  {
    var n := |m.inputs|;
    LineEnds(m, k);
    assert m.inputs[0] <= m.inputs[k - 1] && m.inputs[k] <= m.inputs[n - 1];
    if x == m.inputs[k - 1] {
      if k > 1 {
        LineEnds(m, k - 1);
        SegmentIs(m, x, k - 1);
      }
    } else if Inside(m, x) {
      SegmentIs(m, x, k);
    } else {
      assert k == n - 1;
    }
  }

  // ---------------------------------------------------------------- binary search

  /** `std::upper_bound`: the first index whose entry is above `x`. */
  method UpperBound(inputs: seq<real>, x: real) returns (first: nat)
    requires Increasing(inputs)
    ensures first <= |inputs|
    ensures forall i :: 0 <= i < first ==> inputs[i] <= x
    ensures forall i :: first <= i < |inputs| ==> x < inputs[i]
  {
    first := 0;
    var count := |inputs|;
    while count > 0
      invariant 0 <= count && first + count <= |inputs|
      invariant forall i :: 0 <= i < first ==> inputs[i] <= x
      invariant forall i :: first + count <= i < |inputs| ==> x < inputs[i]
    {
      var step := count / 2;
      if x < inputs[first + step] {
        count := step;
      } else {
        first := first + step + 1;
        count := count - step - 1;
      }
    }
  }

  /** `PiecewiseLinearMap::evaluate`. */
  method Evaluate(m: Map, x: real) returns (y: real)
    requires Valid(m)
    ensures y == Value(m, x)
  {
    if x <= m.inputs[0] {
      return m.outputs[0];
    }
    if x >= m.inputs[|m.inputs| - 1] {
      return m.outputs[|m.outputs| - 1];
    }
    var upper := UpperBound(m.inputs, x);
    var lower := upper - 1;
    var fraction := Over(x - m.inputs[lower], m.inputs[upper] - m.inputs[lower]);
    OnEverySegment(m, upper, x);
    return m.outputs[lower] + Times(fraction, m.outputs[upper] - m.outputs[lower]);
  }

  // ---------------------------------------------------------------- linear scan

  /** The simulator's `interpolate`; its last line, which raises an error, is never reached. */
  method Interpolate(m: Map, x: real) returns (y: real)
    requires |m.inputs| == |m.outputs| > 0
    ensures y == Value(m, x)
  {
    var last := |m.inputs| - 1;
    if x <= m.inputs[0] {
      return m.outputs[0];
    }
    if x >= m.inputs[last] {
      return m.outputs[last];
    }
    var index := 1;
    while index < |m.inputs|
      invariant 1 <= index <= |m.inputs| && m.inputs[index - 1] < x
      invariant index <= last ==> SegmentFrom(m.inputs, x, 1) == SegmentFrom(m.inputs, x, index)
    {
      if x <= m.inputs[index] {
        var fraction := Over(x - m.inputs[index - 1], m.inputs[index] - m.inputs[index - 1]);
        return m.outputs[index - 1] + Times(fraction, m.outputs[index] - m.outputs[index - 1]);
      }
      index := index + 1;
    }
    assert false;
  }

  // ---------------------------------------------------------------- shape

  /** Every output step is at most `slope` times its input step. */
  predicate SlopesWithin(m: Map, slope: real)
    requires |m.inputs| == |m.outputs|
  {
    forall k :: 0 < k < |m.inputs| ==> SlopeAt(m, slope, k)
  }

  predicate SlopeAt(m: Map, slope: real, k: nat)
    requires 0 < k < |m.inputs| == |m.outputs|
  {
    Abs(m.outputs[k] - m.outputs[k - 1]) <= Times(slope, m.inputs[k] - m.inputs[k - 1])
  }

  predicate OutputsWithin(m: Map, low: real, high: real) {
    forall k :: 0 <= k < |m.outputs| ==> low <= m.outputs[k] <= high
  }

  predicate Rising(m: Map) {
    forall k :: 0 < k < |m.outputs| ==> m.outputs[k - 1] <= m.outputs[k]
  }

  /** The point `x` moved into the range of the inputs. */
  function Clamped(m: Map, x: real): real
    requires m.inputs != []
  {
    if x < m.inputs[0] then m.inputs[0] else if x > m.inputs[|m.inputs| - 1] then m.inputs[|m.inputs| - 1] else x
  }

  lemma ValueClamped(m: Map, x: real)
    requires Valid(m)
    ensures Value(m, Clamped(m, x)) == Value(m, x)
    ensures m.inputs[0] <= Clamped(m, x) <= m.inputs[|m.inputs| - 1]
  {
    assert m.inputs[0] < m.inputs[|m.inputs| - 1];
  }

  lemma TimesScale(d: real, f: real, bound: real)
    requires Abs(d) <= bound && 0.0 <= f
    ensures Abs(Times(f, d)) <= Times(f, bound)
  {
    if d < 0.0 {
      assert f * (-d) <= f * bound;
    } else {
      assert f * d <= f * bound;
    }
  }

  lemma TimesCancel(f: real, slope: real, w: real, span: real)
    requires w != 0.0 && f == Over(span, w)
    ensures Times(f, Times(slope, w)) == Times(slope, span)
  {
    assert f * w == span;
    assert f * (slope * w) == slope * (f * w);
  }

  lemma OverDifference(a: real, b: real, w: real, d: real)
    requires w != 0.0
    ensures Times(Over(b, w), d) - Times(Over(a, w), d) == Times(Over(b - a, w), d)
  {
    assert b / w - a / w == (b - a) / w;
  }

  lemma OverNonnegative(a: real, w: real)
    requires a >= 0.0 && w > 0.0
    ensures Over(a, w) >= 0.0
  {
  }

  /** Two points of one segment. */
  lemma LineDifference(m: Map, k: nat, x: real, y: real)
    requires Valid(m) && 0 < k < |m.inputs|
    ensures Line(m, k, y) - Line(m, k, x) ==
            Times(Over(y - x, m.inputs[k] - m.inputs[k - 1]), m.outputs[k] - m.outputs[k - 1])
  {
    OverDifference(x - m.inputs[k - 1], y - m.inputs[k - 1], m.inputs[k] - m.inputs[k - 1], m.outputs[k] - m.outputs[k - 1]);
  }

  lemma LineLipschitz(m: Map, slope: real, k: nat, x: real, y: real)
    requires Valid(m) && 0 < k < |m.inputs| && SlopeAt(m, slope, k) && x <= y
    ensures Abs(Line(m, k, y) - Line(m, k, x)) <= Times(slope, y - x)
  {
    var w := m.inputs[k] - m.inputs[k - 1];
    var f := Over(y - x, w);
    LineDifference(m, k, x, y);
    OverNonnegative(y - x, w);
    TimesScale(m.outputs[k] - m.outputs[k - 1], f, Times(slope, w));
    TimesCancel(f, slope, w, y - x);
  }

  lemma LineRising(m: Map, k: nat, x: real, y: real)
    requires Valid(m) && Rising(m) && 0 < k < |m.inputs| && x <= y
    ensures Line(m, k, x) <= Line(m, k, y)
  {
    LineDifference(m, k, x, y);
    OverNonnegative(y - x, m.inputs[k] - m.inputs[k - 1]);
    TimesNonnegative(Over(y - x, m.inputs[k] - m.inputs[k - 1]), m.outputs[k] - m.outputs[k - 1]);
  }

  lemma TimesNonnegative(x: real, y: real)
    requires x >= 0.0 && y >= 0.0
    ensures Times(x, y) >= 0.0
  {
  }

  lemma TimesSplit(slope: real, a: real, b: real)
    ensures Times(slope, a) + Times(slope, b) == Times(slope, a + b)
  {
  }

  /** Some segment holds a point of the range. */
  lemma {:induction false} HoldingSegment(inputs: seq<real>, x: real, n: nat) returns (k: nat)
    requires 0 < n < |inputs| && inputs[0] <= x <= inputs[n]
    ensures 0 < k <= n && inputs[k - 1] <= x <= inputs[k]
  {
    if n == 1 || inputs[n - 1] <= x {
      k := n;
    } else {
      k := HoldingSegment(inputs, x, n - 1);
    }
  }

  lemma NotAbove(inputs: seq<real>, i: nat, j: nat)
    requires Increasing(inputs) && i <= j < |inputs|
    ensures inputs[i] <= inputs[j]
  {
  }

  /** The points `x <= y` lie in segment `k`. */
  predicate InSegment(inputs: seq<real>, k: nat, x: real, y: real) {
    0 < k < |inputs| && inputs[k - 1] <= x <= y <= inputs[k]
  }

  /** Within each segment the function changes by at most the gauge of the distance. */
  ghost predicate BoundedBySegments(inputs: seq<real>, v: real -> real, gauge: real -> real) {
    forall k: nat, x, y {:trigger InSegment(inputs, k, x, y)} :: InSegment(inputs, k, x, y) ==> Abs(v(y) - v(x)) <= gauge(y - x)
  }

  ghost predicate RisingBySegments(inputs: seq<real>, v: real -> real) {
    forall k: nat, x, y {:trigger InSegment(inputs, k, x, y)} :: InSegment(inputs, k, x, y) ==> v(x) <= v(y)
  }

  predicate Parts(a: real, b: real, whole: real) {
    a + b == whole
  }

  ghost predicate Additive(gauge: real -> real) {
    forall a, b, whole {:trigger Parts(a, b, whole)} :: Parts(a, b, whole) ==> gauge(a) + gauge(b) == gauge(whole)
  }

  lemma {:induction false} BoundedAcross(inputs: seq<real>, v: real -> real, gauge: real -> real, i: nat, x: real, j: nat, y: real)
    requires Increasing(inputs) && BoundedBySegments(inputs, v, gauge) && Additive(gauge) && x <= y
    requires 0 < i <= j < |inputs| && inputs[i - 1] <= x <= inputs[i] && inputs[j - 1] <= y <= inputs[j]
    ensures Abs(v(y) - v(x)) <= gauge(y - x)
    decreases j - i
  {
    if i == j {
      assert InSegment(inputs, i, x, y);
    } else {
      var b := inputs[i];
      NotAbove(inputs, i, j - 1);
      NotAbove(inputs, i, i + 1);
      assert InSegment(inputs, i, x, b);
      BoundedAcross(inputs, v, gauge, i + 1, b, j, y);
      assert Parts(b - x, y - b, y - x);
    }
  }

  lemma {:induction false} RisingAcross(inputs: seq<real>, v: real -> real, i: nat, x: real, j: nat, y: real)
    requires Increasing(inputs) && RisingBySegments(inputs, v) && x <= y
    requires 0 < i <= j < |inputs| && inputs[i - 1] <= x <= inputs[i] && inputs[j - 1] <= y <= inputs[j]
    ensures v(x) <= v(y)
    decreases j - i
  {
    if i == j {
      assert InSegment(inputs, i, x, y);
    } else {
      var b := inputs[i];
      NotAbove(inputs, i, j - 1);
      NotAbove(inputs, i, i + 1);
      assert InSegment(inputs, i, x, b);
      RisingAcross(inputs, v, i + 1, b, j, y);
    }
  }

  function ValueOf(m: Map): real -> real {
    x => if |m.inputs| == |m.outputs| > 0 then Value(m, x) else 0.0
  }

  function Gauge(slope: real): real -> real {
    span => Times(slope, span)
  }

  lemma GaugeAdditive(slope: real)
    ensures Additive(Gauge(slope))
  {
    forall a, b, whole | Parts(a, b, whole)
      ensures Gauge(slope)(a) + Gauge(slope)(b) == Gauge(slope)(whole)
    {
      TimesSplit(slope, a, b);
    }
  }

  lemma ValueBounded(m: Map, slope: real)
    requires Valid(m) && SlopesWithin(m, slope)
    ensures BoundedBySegments(m.inputs, ValueOf(m), Gauge(slope))
  {
    forall k: nat, x, y | InSegment(m.inputs, k, x, y)
      ensures Abs(ValueOf(m)(y) - ValueOf(m)(x)) <= Gauge(slope)(y - x)
    {
      ValueBoundedAt(m, slope, k, x, y);
    }
  }

  lemma ValueBoundedAt(m: Map, slope: real, k: nat, x: real, y: real)
    requires Valid(m) && InSegment(m.inputs, k, x, y) && SlopeAt(m, slope, k)
    ensures Abs(ValueOf(m)(y) - ValueOf(m)(x)) <= Gauge(slope)(y - x)
  {
    OnEverySegment(m, k, x);
    OnEverySegment(m, k, y);
    LineLipschitz(m, slope, k, x, y);
  }

  lemma ValueRising(m: Map)
    requires Valid(m) && Rising(m)
    ensures RisingBySegments(m.inputs, ValueOf(m))
  {
    forall k: nat, x, y | InSegment(m.inputs, k, x, y)
      ensures ValueOf(m)(x) <= ValueOf(m)(y)
    {
      OnEverySegment(m, k, x);
      OnEverySegment(m, k, y);
      LineRising(m, k, x, y);
    }
  }

  /** Two points of the range in segments in their order. */
  lemma SegmentsInOrder(m: Map, x: real, y: real) returns (i: nat, j: nat)
    requires Valid(m) && m.inputs[0] <= x <= y <= m.inputs[|m.inputs| - 1]
    ensures 0 < i <= j < |m.inputs| && m.inputs[i - 1] <= x <= m.inputs[i] && m.inputs[j - 1] <= y <= m.inputs[j]
  {
    j := HoldingSegment(m.inputs, y, |m.inputs| - 1);
    i := HoldingSegment(m.inputs, x, j);
  }

  /** A map whose slopes are bounded is as steep as that bound over all reals, the clamped ends included. */
  lemma Lipschitz(m: Map, slope: real, x: real, y: real)
    requires Valid(m) && SlopesWithin(m, slope)
    ensures Abs(Value(m, y) - Value(m, x)) <= Times(slope, Abs(y - x))
  {
    if x > y {
      LipschitzUp(m, slope, y, x);
    } else {
      LipschitzUp(m, slope, x, y);
    }
  }

  lemma LipschitzUp(m: Map, slope: real, x: real, y: real)
    requires Valid(m) && SlopesWithin(m, slope) && x <= y
    ensures Abs(Value(m, y) - Value(m, x)) <= Times(slope, y - x)
  {
    var a, b := Clamped(m, x), Clamped(m, y);
    LipschitzInside(m, slope, a, b);
    SlopeNonnegative(m, slope);
    TimesMore(slope, b - a, y - x);
    ValueClamped(m, x);
    ValueClamped(m, y);
  }

  lemma LipschitzInside(m: Map, slope: real, a: real, b: real)
    requires Valid(m) && SlopesWithin(m, slope) && m.inputs[0] <= a <= b <= m.inputs[|m.inputs| - 1]
    ensures Abs(Value(m, b) - Value(m, a)) <= Times(slope, b - a)
  {
    var i, j := SegmentsInOrder(m, a, b);
    ValueBounded(m, slope);
    GaugeAdditive(slope);
    BoundedAcross(m.inputs, ValueOf(m), Gauge(slope), i, a, j, b);
  }

  lemma SlopeNonnegative(m: Map, slope: real)
    requires Valid(m) && SlopesWithin(m, slope)
    ensures slope >= 0.0
  {
    assert SlopeAt(m, slope, 1);
    SignOf(slope, m.inputs[1] - m.inputs[0]);
  }

  lemma SignOf(slope: real, w: real)
    requires w > 0.0 && Times(slope, w) >= 0.0
    ensures slope >= 0.0
  {
  }

  lemma TimesMore(slope: real, a: real, b: real)
    requires slope >= 0.0 && a <= b
    ensures Times(slope, a) <= Times(slope, b)
  {
  }

  /** A map whose outputs rise is monotone over all reals. */
  lemma Monotone(m: Map, x: real, y: real)
    requires Valid(m) && Rising(m) && x <= y
    ensures Value(m, x) <= Value(m, y)
  {
    ValueClamped(m, x);
    ValueClamped(m, y);
    var i, j := SegmentsInOrder(m, Clamped(m, x), Clamped(m, y));
    ValueRising(m);
    RisingAcross(m.inputs, ValueOf(m), i, Clamped(m, x), j, Clamped(m, y));
  }

  lemma OverAtMostOne(a: real, w: real)
    requires 0.0 <= a <= w && w > 0.0
    ensures 0.0 <= Over(a, w) <= 1.0
  {
  }

  lemma PartOf(d: real, f: real)
    requires 0.0 <= f <= 1.0
    ensures d >= 0.0 ==> 0.0 <= Times(f, d) <= d
    ensures d <= 0.0 ==> d <= Times(f, d) <= 0.0
  {
    var g := 1.0 - f;
    assert f * d + g * d == d;
    if d >= 0.0 {
      TimesNonnegative(f, d);
      TimesNonnegative(g, d);
    } else {
      TimesNonnegative(f, -d);
      TimesNonnegative(g, -d);
      assert f * (-d) == -(f * d) && g * (-d) == -(g * d);
    }
  }

  lemma BetweenEnds(p: real, q: real, f: real, low: real, high: real)
    requires low <= p <= high && low <= q <= high && 0.0 <= f <= 1.0
    ensures low <= p + Times(f, q - p) <= high
  {
    PartOf(q - p, f);
  }

  /** No value is outside the range of the outputs. */
  lemma WithinOutputs(m: Map, low: real, high: real, x: real)
    requires Valid(m) && OutputsWithin(m, low, high)
    ensures low <= Value(m, x) <= high
  {
    if Inside(m, x) {
      var k := Segment(m, x);
      var w := m.inputs[k] - m.inputs[k - 1];
      OverAtMostOne(x - m.inputs[k - 1], w);
      BetweenEnds(m.outputs[k - 1], m.outputs[k], Over(x - m.inputs[k - 1], w), low, high);
    }
  }
}
