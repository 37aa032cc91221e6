/** The conversions between GripperCommand's metres and newtons and the gripper's raw bytes. */
module GripperUnits {
  import opened Messages
  import opened Rounding

  datatype Config = Config(closed: real, maxOpening: real, closedRaw: int,
                           minEffort: real, maxEffort: real, defaultEffort: real, speed: int)

  /** What the constructor demands of the parameters. */
  predicate Allowed(c: Config) {
    && 0.0 <= c.closed < c.maxOpening
    && 0.0 <= c.minEffort < c.maxEffort
    && c.minEffort <= c.defaultEffort <= c.maxEffort
    && 1 <= c.closedRaw <= 255
    && 0 <= c.speed <= 255
  }

  /** What the goal handler lets through. */
  predicate AcceptsGoal(c: Config, position: real, effort: real) {
    && c.closed <= position <= c.maxOpening
    && 0.0 <= effort
    && (effort > 0.0 ==> c.minEffort <= effort <= c.maxEffort)
  }

  /** A conversion to an eight-bit integer. */
  function Truncated(n: int): uint8 {
    n % 256
  }

  function ClosedFraction(c: Config, position: real): real
    requires Allowed(c)
  {
    Over(c.maxOpening - position, c.maxOpening - c.closed)
  }

  function PositionToRaw(c: Config, position: real): uint8
    requires Allowed(c)
  {
    Truncated(RoundAway(Times(c.closedRaw as real, ClosedFraction(c, position))))
  }

  function Min(x: real, y: real): real {
    if y < x then y else x
  }

  function RawToPosition(c: Config, raw: uint8): real
    requires Allowed(c)
  {
    c.maxOpening - Times(Over(Min(raw as real, c.closedRaw as real), c.closedRaw as real), c.maxOpening - c.closed)
  }

  function EffortFraction(c: Config, requested: real): real
    requires Allowed(c)
  {
    Over((if requested == 0.0 then c.defaultEffort else requested) - c.minEffort, c.maxEffort - c.minEffort)
  }

  function EffortToRaw(c: Config, requested: real): uint8
    requires Allowed(c)
  {
    Truncated(RoundAway(Times(255.0, EffortFraction(c, requested))))
  }

  // ---------------------------------------------------------------- products and quotients

  lemma QuotientRange(x: real, y: real)
    requires 0.0 <= x <= y && 0.0 < y
    ensures 0.0 <= Over(x, y) <= 1.0
  {
  }

  lemma QuotientTimes(x: real, y: real)
    requires y != 0.0
    ensures Times(Over(x, y), y) == x && Times(y, Over(x, y)) == x
  {
  }

  lemma TimesRange(x: real, f: real)
    requires 0.0 <= x && 0.0 <= f <= 1.0
    ensures 0.0 <= Times(x, f) <= x
  {
  }

  lemma RoundAwayRange(x: real, n: int)
    requires 0.0 <= x <= n as real
    ensures 0 <= RoundAway(x) <= n
  {
    RoundAwayMonotone(0.0, x);
    RoundAwayMonotone(x, n as real);
    RoundAwayNearest(n as real, n);
  }

  lemma FractionRaw(n: int, f: real)
    requires 0 <= n <= 255 && 0.0 <= f <= 1.0
    ensures 0 <= RoundAway(Times(n as real, f)) <= n
    ensures Truncated(RoundAway(Times(n as real, f))) == RoundAway(Times(n as real, f))
  {
    TimesRange(n as real, f);
    RoundAwayRange(Times(n as real, f), n);
  }

  // ---------------------------------------------------------------- the casts lose nothing

  lemma PositionNoWrap(c: Config, position: real)
    requires Allowed(c) && c.closed <= position <= c.maxOpening
    ensures PositionToRaw(c, position) == RoundAway(Times(c.closedRaw as real, ClosedFraction(c, position))) <= c.closedRaw
  {
    QuotientRange(c.maxOpening - position, c.maxOpening - c.closed);
    FractionRaw(c.closedRaw, ClosedFraction(c, position));
  }

  lemma EffortNoWrap(c: Config, effort: real)
    requires Allowed(c) && (effort == 0.0 || c.minEffort <= effort <= c.maxEffort)
    ensures EffortToRaw(c, effort) == RoundAway(Times(255.0, EffortFraction(c, effort)))
  {
    QuotientRange((if effort == 0.0 then c.defaultEffort else effort) - c.minEffort, c.maxEffort - c.minEffort);
    FractionRaw(255, EffortFraction(c, effort));
  }

  /** No accepted goal is changed by the casts to bytes, and no position goes past the closed one. */
  lemma NoWrap(c: Config, position: real, effort: real)
    requires Allowed(c) && AcceptsGoal(c, position, effort)
    ensures PositionToRaw(c, position) == RoundAway(Times(c.closedRaw as real, ClosedFraction(c, position))) <= c.closedRaw
    ensures EffortToRaw(c, effort) == RoundAway(Times(255.0, EffortFraction(c, effort)))
  {
    PositionNoWrap(c, position);
    EffortNoWrap(c, effort);
  }

  // ---------------------------------------------------------------- there and back

  lemma Scaled(u: real, r: real, w: real)
    requires 0.0 <= u && 0.0 < r && 0.0 < w && Times(u, r) <= 0.5
    ensures Times(u, w) <= Over(w, 2.0 * r)
  {
    var h := w / (2.0 * r);
    assert w == 2.0 * r * h;
    assert h > 0.0;
    assert u * w == 2.0 * (u * r) * h;
    TimesAtMost(2.0 * (u * r), h);
  }

  lemma TimesAtMost(x: real, h: real)
    requires x <= 1.0 && 0.0 <= h
    ensures x * h <= h
  {
  }

  lemma Differences(f: real, g: real, w: real)
    requires 0.0 < w
    ensures Abs(Times(g, w) - Times(f, w)) == Times(Abs(g - f), w)
  {
    assert g * w - f * w == (g - f) * w;
  }

  /** Rounding a fraction of `r` to whole steps moves it by at most half a step. */
  lemma Quantised(f: real, n: int, r: real, w: real)
    requires 0.0 < r && 0.0 < w && Abs(n as real - Times(r, f)) <= 0.5
    ensures Abs(Times(Over(n as real, r), w) - Times(f, w)) <= Over(w, 2.0 * r)
  {
    var g := Over(n as real, r);
    QuotientTimes(n as real, r);
    Differences(f, g, r);
    TimesCommute(r, f);
    Scaled(Abs(g - f), r, w);
    Differences(f, g, w);
  }

  lemma TimesCommute(x: real, y: real)
    ensures Times(x, y) == Times(y, x)
  {
  }

  /** A requested position and the position its raw value stands for differ by at most half a raw step. */
  lemma PositionError(c: Config, position: real)
    requires Allowed(c) && c.closed <= position <= c.maxOpening
    ensures Abs(RawToPosition(c, PositionToRaw(c, position)) - position) <= Over(c.maxOpening - c.closed, 2.0 * c.closedRaw as real)
  {
    var w := c.maxOpening - c.closed;
    var f := ClosedFraction(c, position);
    PositionNoWrap(c, position);
    RoundAwayNear(Times(c.closedRaw as real, f));
    Quantised(f, PositionToRaw(c, position), c.closedRaw as real, w);
    QuotientTimes(c.maxOpening - position, w);
  }

  /** Every raw value the gripper can be sent comes back from the position it stands for. */
  lemma RawRoundTrip(c: Config, raw: uint8)
    requires Allowed(c) && raw <= c.closedRaw
    ensures c.closed <= RawToPosition(c, raw) <= c.maxOpening
    ensures PositionToRaw(c, RawToPosition(c, raw)) == raw
  {
    var w := c.maxOpening - c.closed;
    var r := c.closedRaw as real;
    var g := Over(raw as real, r);
    QuotientRange(raw as real, r);
    TimesCommute(g, w);
    TimesRange(w, g);
    var p := RawToPosition(c, raw);
    TimesOver(g, w);
    assert ClosedFraction(c, p) == g;
    QuotientTimes(raw as real, r);
    PositionNoWrap(c, p);
    RoundAwayNearest(raw as real, raw);
  }

  lemma TimesOver(g: real, w: real)
    requires w != 0.0
    ensures Over(Times(g, w), w) == g
  {
  }

  /** The effort a raw value stands for. */
  function RawToEffort(c: Config, raw: uint8): real {
    c.minEffort + Times(Over(raw as real, 255.0), c.maxEffort - c.minEffort)
  }

  /** A requested effort, or the default one when none is requested, and its raw value's effort differ by at most half a raw step. */
  lemma EffortError(c: Config, requested: real)
    requires Allowed(c) && (requested == 0.0 || c.minEffort <= requested <= c.maxEffort)
    ensures Abs(RawToEffort(c, EffortToRaw(c, requested)) - (if requested == 0.0 then c.defaultEffort else requested))
         <= Over(c.maxEffort - c.minEffort, 510.0)
  {
    var w := c.maxEffort - c.minEffort;
    var f := EffortFraction(c, requested);
    var x := (if requested == 0.0 then c.defaultEffort else requested) - c.minEffort;
    EffortNoWrap(c, requested);
    RoundAwayNear(Times(255.0, f));
    Quantised(f, EffortToRaw(c, requested), 255.0, w);
    QuotientTimes(x, w);
  }

  lemma Ends(x: real)
    requires x != 0.0
    ensures Over(0.0, x) == 0.0 && Over(x, x) == 1.0
    ensures Times(x, 0.0) == 0.0 && Times(x, 1.0) == x
  {
  }

  /** The ends of the two ranges: open is 0 and closed the configured raw value, the least effort 0 and the greatest 255. */
  lemma RangeEnds(c: Config)
    requires Allowed(c)
    ensures PositionToRaw(c, c.maxOpening) == 0 && PositionToRaw(c, c.closed) == c.closedRaw
    ensures c.minEffort > 0.0 ==> EffortToRaw(c, c.minEffort) == 0
    ensures EffortToRaw(c, c.maxEffort) == 255
  {
    Ends(c.maxOpening - c.closed);
    Ends(c.maxEffort - c.minEffort);
    Ends(c.closedRaw as real);
    Ends(255.0);
    RoundAwayNearest(0.0, 0);
    RoundAwayNearest(c.closedRaw as real, c.closedRaw);
    RoundAwayNearest(255.0, 255);
  }

  predicate Fraction(f: real) {
    0.0 <= f <= 1.0
  }

  lemma OverIsFraction(x: real, y: real)
    requires 0.0 < y
    ensures Fraction(Over(x, y)) <==> 0.0 <= x <= y
  {
    QuotientTimes(x, y);
    if 0.0 <= x <= y {
      QuotientRange(x, y);
    } else if Fraction(Over(x, y)) {
      TimesRange(y, Over(x, y));
    }
  }

  /** The goal handler lets a goal through if and only if its position and effort are within the ranges the raw values stand for. */
  lemma AcceptedExactly(c: Config, position: real, effort: real)
    requires Allowed(c)
    ensures AcceptsGoal(c, position, effort) <==> Fraction(ClosedFraction(c, position)) && Fraction(EffortFraction(c, effort))
  {
    OverIsFraction(c.maxOpening - position, c.maxOpening - c.closed);
    OverIsFraction((if effort == 0.0 then c.defaultEffort else effort) - c.minEffort, c.maxEffort - c.minEffort);
  }
}
