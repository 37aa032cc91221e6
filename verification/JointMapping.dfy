/** The eleven finger joints, as the state publisher computes them from a status and the simulator from its axes. */
module JointMapping {
  import opened Messages
  import opened Piecewise
  import opened Rounding
  import SimBackend
  import SimRange
  import SimRuns

  const JOINTS := 11

  datatype FingerMaps = FingerMaps(proximal: Map, middle: Map, distal: Map)

  datatype JointMaps = JointMaps(finger: FingerMaps, pinchFinger: FingerMaps, scissor: Map)

  predicate ValidFinger(f: FingerMaps) {
    Valid(f.proximal) && Valid(f.middle) && Valid(f.distal)
  }

  predicate ValidMaps(maps: JointMaps) {
    ValidFinger(maps.finger) && ValidFinger(maps.pinchFinger) && Valid(maps.scissor)
  }

  /** The value of a table at a point. */
  type Reading = (Map, real) -> real

  function ValueAt(m: Map, x: real): real {
    if |m.inputs| == |m.outputs| > 0 then Value(m, x) else 0.0
  }

  function FingerJoints(value: Reading, f: FingerMaps, x: real): (joints: seq<real>)
    ensures |joints| == 3
  {
    [value(f.proximal, x), value(f.middle, x), value(f.distal, x)]
  }

  function Assembled(a: seq<real>, angle: real, b: seq<real>, c: seq<real>): seq<real> {
    a + [angle] + b + [-angle] + c
  }

  /** The joints of the three fingers, B and C each behind its scissor joint. */
  function Joints(value: Reading, maps: JointMaps, mode: uint8, x: SimBackend.Axes): (joints: seq<real>)
    ensures |joints| == JOINTS
  {
    var f := if mode == MODE_PINCH then maps.pinchFinger else maps.finger;
    var angle := value(maps.scissor, x[3]);
    Assembled(FingerJoints(value, f, x[0]), angle, FingerJoints(value, f, x[1]), FingerJoints(value, f, x[2]))
  }

  // ---------------------------------------------------------------- the two computations

  method EvaluateFinger(f: FingerMaps, position: uint8) returns (joints: seq<real>)
    requires ValidFinger(f)
    ensures joints == FingerJoints(ValueAt, f, position as real)
  {
    var proximal := Evaluate(f.proximal, position as real);
    var middle := Evaluate(f.middle, position as real);
    var distal := Evaluate(f.distal, position as real);
    joints := [proximal, middle, distal];
  }

  /** `GripperJointMapper::map`. */
  method MapJoints(maps: JointMaps, mode: uint8, positionA: uint8, positionB: uint8, positionC: uint8, positionScissor: uint8)
    returns (joints: seq<real>)
    requires ValidMaps(maps)
    ensures joints == Joints(ValueAt, maps, mode, [positionA as real, positionB as real, positionC as real, positionScissor as real])
  {
    var active := if mode == MODE_PINCH then maps.pinchFinger else maps.finger;
    var a := EvaluateFinger(active, positionA);
    var b := EvaluateFinger(active, positionB);
    var c := EvaluateFinger(active, positionC);
    var scissor := Evaluate(maps.scissor, positionScissor as real);
    joints := Assembled(a, scissor, b, c);
  }

  method InterpolateFinger(f: FingerMaps, raw: real) returns (joints: seq<real>)
    requires ValidFinger(f)
    ensures joints == FingerJoints(ValueAt, f, raw)
  {
    var proximal := Interpolate(f.proximal, raw);
    var middle := Interpolate(f.middle, raw);
    var distal := Interpolate(f.distal, raw);
    joints := [proximal, middle, distal];
  }

  /** The simulator's `_publish_joint_targets`. */
  method JointTargets(maps: JointMaps, mode: uint8, actual: SimBackend.Axes) returns (data: seq<real>)
    requires ValidMaps(maps)
    ensures data == Joints(ValueAt, maps, mode, actual)
  {
    var f := if mode == MODE_PINCH then maps.pinchFinger else maps.finger;
    var a := InterpolateFinger(f, actual[0]);
    var b := InterpolateFinger(f, actual[1]);
    var c := InterpolateFinger(f, actual[2]);
    var scissor := Interpolate(maps.scissor, actual[3]);
    data := Assembled(a, scissor, b, c);
  }

  // ---------------------------------------------------------------- how they agree

  /** The two outer fingers turn by opposite scissor angles, and the base finger not at all. */
  lemma ScissorsOppose(value: Reading, maps: JointMaps, mode: uint8, x: SimBackend.Axes)
    ensures var j := Joints(value, maps, mode, x); j[3] == -j[7] == value(maps.scissor, x[3])
  {
  }

  predicate SlopeFinger(f: FingerMaps, slope: real)
    requires ValidFinger(f)
  {
    SlopesWithin(f.proximal, slope) && SlopesWithin(f.middle, slope) && SlopesWithin(f.distal, slope)
  }

  predicate SlopeMaps(maps: JointMaps, slope: real)
    requires ValidMaps(maps)
  {
    SlopeFinger(maps.finger, slope) && SlopeFinger(maps.pinchFinger, slope) && SlopesWithin(maps.scissor, slope)
  }

  lemma RawNear(x: real)
    requires 0.0 <= x <= 255.0
    ensures Abs(SimBackend.ToRaw(x) as real - x) <= 0.5
  {
    RoundEvenNear(x);
  }

  lemma Near(m: Map, slope: real, x: real, y: real)
    requires Valid(m) && SlopesWithin(m, slope)
    ensures Abs(ValueAt(m, y) - ValueAt(m, x)) <= Times(slope, Abs(y - x))
  {
    Lipschitz(m, slope, x, y);
  }

  /** The positions a simulator status reports for its axes. */
  function Reported(actual: SimBackend.Axes): SimBackend.Axes {
    [SimBackend.ToRaw(actual[0]) as real, SimBackend.ToRaw(actual[1]) as real,
     SimBackend.ToRaw(actual[2]) as real, SimBackend.ToRaw(actual[3]) as real]
  }

  /** The axis that joint `j` follows, and the table it follows it by. */
  function AxisOf(j: nat): (axis: nat)
    requires j < JOINTS
    ensures axis < SimBackend.AXES
  {
    if j < 3 then 0 else if j == 3 || j == 7 then 3 else if j < 7 then 1 else 2
  }

  function TableOf(maps: JointMaps, mode: uint8, j: nat): Map
    requires j < JOINTS
  {
    var f := if mode == MODE_PINCH then maps.pinchFinger else maps.finger;
    if j == 3 || j == 7 then maps.scissor
    else if j == 0 || j == 4 || j == 8 then f.proximal
    else if j == 1 || j == 5 || j == 9 then f.middle
    else f.distal
  }

  /** Every joint is one table's value on one axis; only the scissor joint of finger C is turned round. */
  lemma JointFormula(value: Reading, maps: JointMaps, mode: uint8, x: SimBackend.Axes, j: nat)
    requires j < JOINTS
    ensures var v := value(TableOf(maps, mode, j), x[AxisOf(j)]);
      Joints(value, maps, mode, x)[j] == if j == 7 then -v else v
  {
  }

  /** All eleven joints in their order: finger A, then the scissor joint and finger B, then the opposite scissor joint and finger C. */
  lemma AllJoints(maps: JointMaps, mode: uint8, x: SimBackend.Axes)
    requires ValidMaps(maps)
    ensures var f := if mode == 1 then maps.pinchFinger else maps.finger;
      Joints(ValueAt, maps, mode, x) == [
        Value(f.proximal, x[0]), Value(f.middle, x[0]), Value(f.distal, x[0]),
        Value(maps.scissor, x[3]),
        Value(f.proximal, x[1]), Value(f.middle, x[1]), Value(f.distal, x[1]),
        -Value(maps.scissor, x[3]),
        Value(f.proximal, x[2]), Value(f.middle, x[2]), Value(f.distal, x[2])]
  {
    hide Value;
    ValuesAt(maps, x[0]);
    ValuesAt(maps, x[1]);
    ValuesAt(maps, x[2]);
    ValuesAt(maps, x[3]);
    hide ValueAt, ValidMaps;
  }

  lemma ValuesAt(maps: JointMaps, x: real)
    requires ValidMaps(maps)
    ensures ValueAt(maps.scissor, x) == Value(maps.scissor, x)
    ensures FingerJoints(ValueAt, maps.finger, x) == [Value(maps.finger.proximal, x), Value(maps.finger.middle, x), Value(maps.finger.distal, x)]
    ensures FingerJoints(ValueAt, maps.pinchFinger, x)
         == [Value(maps.pinchFinger.proximal, x), Value(maps.pinchFinger.middle, x), Value(maps.pinchFinger.distal, x)]
  {
    hide Value;
  }

  lemma TableSlope(maps: JointMaps, slope: real, mode: uint8, j: nat)
    requires ValidMaps(maps) && SlopeMaps(maps, slope) && j < JOINTS
    ensures Valid(TableOf(maps, mode, j)) && SlopesWithin(TableOf(maps, mode, j), slope)
  {
  }

  lemma Turned(turned: bool, v: real, w: real, x: real, y: real, bound: real)
    requires x == (if turned then -v else v) && y == (if turned then -w else w) && Abs(w - v) <= bound
    ensures Abs(y - x) <= bound
  {
  }

  lemma JointWithin(value: Reading, maps: JointMaps, mode: uint8, x: SimBackend.Axes, y: SimBackend.Axes, j: nat, v: real, w: real, bound: real)
    requires j < JOINTS && v == value(TableOf(maps, mode, j), x[AxisOf(j)]) && w == value(TableOf(maps, mode, j), y[AxisOf(j)])
    requires Abs(w - v) <= bound
    ensures Abs(Joints(value, maps, mode, y)[j] - Joints(value, maps, mode, x)[j]) <= bound
  {
    JointFormula(value, maps, mode, x, j);
    JointFormula(value, maps, mode, y, j);
    Turned(j == 7, v, w, Joints(value, maps, mode, x)[j], Joints(value, maps, mode, y)[j], bound);
  }

  /** A joint moves no further than its axis takes the steepest table. */
  lemma JointNear(maps: JointMaps, slope: real, mode: uint8, x: SimBackend.Axes, y: SimBackend.Axes, j: nat)
    requires ValidMaps(maps) && SlopeMaps(maps, slope) && j < JOINTS
    ensures Abs(Joints(ValueAt, maps, mode, y)[j] - Joints(ValueAt, maps, mode, x)[j]) <= Times(slope, Abs(y[AxisOf(j)] - x[AxisOf(j)]))
  {
    var m := TableOf(maps, mode, j);
    var from, to := x[AxisOf(j)], y[AxisOf(j)];
    TableSlope(maps, slope, mode, j);
    Near(m, slope, from, to);
    JointWithin(ValueAt, maps, mode, x, y, j, ValueAt(m, from), ValueAt(m, to), Times(slope, Abs(to - from)));
  }

  lemma ReportedAxis(actual: SimBackend.Axes, i: nat)
    requires i < SimBackend.AXES
    ensures Reported(actual)[i] == SimBackend.ToRaw(actual[i]) as real
    ensures 0.0 <= actual[i] <= 255.0 ==> Abs(Reported(actual)[i] - actual[i]) <= 0.5
  {
    if 0.0 <= actual[i] <= 255.0 {
      RawNear(actual[i]);
    }
  }

  /**
   * With the same tables, what the state publisher makes of a simulator status is never further from the
   * simulator's own joint targets than the rounding of the axis takes the steepest table, which is half a raw
   * step within the raw range, and equal at whole positions.
   */
  lemma PublisherFollowsSimulator(maps: JointMaps, slope: real, mode: uint8, actual: SimBackend.Axes, j: nat)
    requires ValidMaps(maps) && SlopeMaps(maps, slope) && j < JOINTS
    ensures var rounding := Abs(Reported(actual)[AxisOf(j)] - actual[AxisOf(j)]);
      && Abs(Joints(ValueAt, maps, mode, Reported(actual))[j] - Joints(ValueAt, maps, mode, actual)[j]) <= Times(slope, rounding)
      && (0.0 <= actual[AxisOf(j)] <= 255.0 ==> rounding <= 0.5)
    ensures Reported(actual) == actual ==> Joints(ValueAt, maps, mode, Reported(actual)) == Joints(ValueAt, maps, mode, actual)
  {
    JointNear(maps, slope, mode, actual, Reported(actual), j);
    ReportedAxis(actual, AxisOf(j));
  }

  /** The joints the state publisher makes of a status. */
  function StatusJoints(maps: JointMaps, d: Device): seq<real> {
    Joints(ValueAt, maps, d.mode, [d.a.actual as real, d.b.actual as real, d.c.actual as real, d.scissor.actual as real])
  }

  /** A status the simulator publishes reports its axes, rounded. */
  lemma StatusReports(config: SimBackend.Config, s: SimBackend.State, dt: real)
    ensures var t := SimBackend.Update(config, s, dt); var d := SimBackend.StatusOf(t).device;
      Reported(t.actual) == [d.a.actual as real, d.b.actual as real, d.c.actual as real, d.scissor.actual as real]
  {
  }

  /** How far the joints made of a status are from those of the axes. */
  predicate Close(maps: JointMaps, slope: real, s: SimBackend.State, j: nat)
    requires j < JOINTS
  {
    Abs(StatusJoints(maps, SimBackend.StatusOf(s).device)[j] - Joints(ValueAt, maps, s.device.mode, s.actual)[j]) <= Times(slope, 0.5)
  }

  lemma UpdateClose(config: SimBackend.Config, s: SimBackend.State, dt: real, maps: JointMaps, slope: real, j: nat)
    requires ValidMaps(maps) && SlopeMaps(maps, slope) && j < JOINTS && SimRange.InRange(SimBackend.Update(config, s, dt).actual)
    ensures Close(maps, slope, SimBackend.Update(config, s, dt), j)
  {
    var t := SimBackend.Update(config, s, dt);
    StatusReports(config, s, dt);
    TableSlope(maps, slope, t.device.mode, j);
    PublisherFollowsSimulator(maps, slope, t.device.mode, t.actual, j);
    SlopeNonnegative(TableOf(maps, t.device.mode, j), slope);
    TimesMore(slope, Abs(Reported(t.actual)[AxisOf(j)] - t.actual[AxisOf(j)]), 0.5);
  }

  lemma LastUpdate(config: SimBackend.Config, run: seq<SimRuns.Label>, dt: real)
    ensures SimRuns.After(config, run + [SimRuns.Tick(dt)]).sim == SimBackend.Update(config, SimRuns.After(config, run).sim, dt)
  {
    assert (run + [SimRuns.Tick(dt)])[..|run|] == run;
  }

  /**
   * In every run, with a configuration that keeps the axes in range, the joints published from the status of a
   * timer callback are within half the steepest slope of the targets the same callback sends to the joints.
   */
  lemma PublisherFollowsRun(config: SimBackend.Config, run: seq<SimRuns.Label>, dt: real, maps: JointMaps, slope: real, j: nat)
    requires SimBackend.Allowed(config) && SimRange.ModesInRange(config) && config.maximumSpeed >= 0.0
    requires SimRange.Timely(run) && dt >= 0.0 && ValidMaps(maps) && SlopeMaps(maps, slope) && j < JOINTS
    ensures Close(maps, slope, SimRuns.After(config, run + [SimRuns.Tick(dt)]).sim, j)
  {
    LastUpdate(config, run, dt);
    SimRange.StaysInRange(config, run + [SimRuns.Tick(dt)]);
    UpdateClose(config, SimRuns.After(config, run).sim, dt, maps, slope, j);
  }
}
