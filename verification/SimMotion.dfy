/** How the simulated axes move: never past their target, and there in a time that can be computed. */
module SimMotion {
  import opened Messages
  import opened Rounding
  import opened SimBackend

  function Max(x: real, y: real): real {
    if x < y then y else x
  }

  // ---------------------------------------------------------------- one axis, one update

  /** A step of at least 0 shortens the way by the step, down to 0, and stays on the same side. */
  lemma MovedShortens(actual: real, target: real, step: real)
    requires step >= 0.0
    ensures Abs(target - Moved(actual, target, step)) == Max(0.0, Abs(target - actual) - step)
    ensures actual <= target ==> actual <= Moved(actual, target, step) <= target
    ensures actual >= target ==> actual >= Moved(actual, target, step) >= target
  {
  }

  lemma TimesPositive(x: real, y: real)
    requires x >= 0.0 && y >= 0.0
    ensures Times(x, y) >= 0.0
  {
  }

  lemma TimesOne(x: real)
    ensures Times(x, 1.0) == x
  {
  }

  lemma Between(low: real, high: real, f: real)
    requires 0.0 <= f <= 1.0 && low > 0.0 && high > 0.0
    ensures low + Times(high - low, f) > 0.0
  {
    if low < high {
      TimesPositive(high - low, f);
    } else {
      TimesPositive(low - high, 1.0 - f);
      Complement(low - high, f);
    }
  }

  lemma Complement(x: real, f: real)
    ensures Times(x, 1.0 - f) == x + Times(-x, f)
  {
  }

  lemma SpeedPositive(config: Config, raw: uint8)
    requires Allowed(config) && config.maximumSpeed > 0.0
    ensures RawSpeed(config, raw) > 0.0
  {
    Between(config.minimumSpeed, config.maximumSpeed, raw as real / 255.0);
  }

  /** The speeds a command can ask for are all positive exactly when the configured maximum is. */
  lemma SpeedsPositive(config: Config)
    requires Allowed(config)
    ensures (forall raw: uint8 :: RawSpeed(config, raw) > 0.0) <==> config.maximumSpeed > 0.0
  {
    TimesOne(config.maximumSpeed - config.minimumSpeed);
    assert RawSpeed(config, 255) == config.maximumSpeed;
    if config.maximumSpeed > 0.0 {
      forall raw: uint8
        ensures RawSpeed(config, raw) > 0.0
      {
        SpeedPositive(config, raw);
      }
    }
  }

  // ---------------------------------------------------------------- many updates

  function Updates(config: Config, s: State, dts: seq<real>): State {
    if dts == [] then s else Update(config, Updates(config, s, dts[..|dts| - 1]), dts[|dts| - 1])
  }

  /** How far an axis can have come in a number of updates. */
  function Travel(config: Config, speed: uint8, dts: seq<real>): real {
    if dts == [] then 0.0
    else Travel(config, speed, dts[..|dts| - 1]) + Times(RawSpeed(config, speed), dts[|dts| - 1])
  }

  /** Neither a speed nor the time is negative. */
  predicate Forward(config: Config, speeds: Speeds, dts: seq<real>) {
    && (forall i :: 0 <= i < AXES ==> RawSpeed(config, speeds[i]) >= 0.0)
    && forall k :: 0 <= k < |dts| ==> dts[k] >= 0.0
  }

  lemma StepForward(config: Config, speed: uint8, dt: real)
    requires RawSpeed(config, speed) >= 0.0 && dt >= 0.0
    ensures Times(RawSpeed(config, speed), dt) >= 0.0
  {
    TimesPositive(RawSpeed(config, speed), dt);
  }

  /** One update as one step of one axis. */
  lemma UpdateAxis(config: Config, s: State, dt: real, i: nat) returns (step: real)
    requires Driven(s) && i < AXES
    ensures step == Times(RawSpeed(config, s.speeds[i]), dt)
    ensures Update(config, s, dt).actual[i] == Moved(s.actual[i], s.target[i], step)
    ensures var s' := Update(config, s, dt); Driven(s') && s'.target == s.target && s'.speeds == s.speeds
  {
    step := Steps(config, s.speeds, dt)[i];
  }

  /** An axis that started at `start` and has come as far as `way` allows. */
  predicate Arrives(start: real, target: real, way: real, actual: real) {
    && Abs(target - actual) == Max(0.0, Abs(target - start) - way)
    && (start <= target ==> start <= actual <= target)
    && (start >= target ==> start >= actual >= target)
  }

  lemma ArrivesFurther(start: real, target: real, way: real, actual: real, step: real)
    requires Arrives(start, target, way, actual) && way >= 0.0 && step >= 0.0
    ensures Arrives(start, target, way + step, Moved(actual, target, step))
  {
    MovedShortens(actual, target, step);
  }

  lemma TravelMore(config: Config, speed: uint8, dts: seq<real>, step: real)
    requires dts != [] && step == Times(RawSpeed(config, speed), dts[|dts| - 1])
    ensures Travel(config, speed, dts) == Travel(config, speed, dts[..|dts| - 1]) + step
  {
  }

  /**
   * Between commands, after any number of updates the distance of each axis from its target is what it
   * was less the way it can have come, down to 0, and the axis is between its start and its target.
   */
  lemma {:induction false} DistanceAfter(config: Config, s: State, dts: seq<real>, i: nat)
    requires Driven(s) && Forward(config, s.speeds, dts) && i < AXES
    ensures var s' := Updates(config, s, dts);
      && Driven(s') && s'.target == s.target && s'.speeds == s.speeds
      && Arrives(s.actual[i], s.target[i], Travel(config, s.speeds[i], dts), s'.actual[i])
  {
    if dts != [] {
      var before := dts[..|dts| - 1];
      var dt := dts[|dts| - 1];
      DistanceAfter(config, s, before, i);
      TravelForward(config, s.speeds[i], before);
      var m := Updates(config, s, before);
      StepForward(config, s.speeds[i], dt);
      var step := UpdateAxis(config, m, dt, i);
      TravelMore(config, s.speeds[i], dts, step);
      ArrivesFurther(s.actual[i], s.target[i], Travel(config, s.speeds[i], before), m.actual[i], step);
    }
  }

  lemma {:induction false} TravelForward(config: Config, speed: uint8, dts: seq<real>)
    requires RawSpeed(config, speed) >= 0.0 && forall k :: 0 <= k < |dts| ==> dts[k] >= 0.0
    ensures Travel(config, speed, dts) >= 0.0
  {
    if dts != [] {
      TravelForward(config, speed, dts[..|dts| - 1]);
      StepForward(config, speed, dts[|dts| - 1]);
    }
  }

  // ---------------------------------------------------------------- arrival

  lemma LastStepMoves(start: real, target: real, way: real, actual: real, step: real)
    requires Arrives(start, target, way, actual) && way >= 0.0 && step >= 0.0
    ensures StillMoving(actual, target, step) <==> Abs(target - start) > way + step
  {
  }

  /** Whether one axis is still on its way in the last of some updates. */
  lemma AxisMoves(config: Config, s: State, dts: seq<real>, i: nat)
    requires Driven(s) && Forward(config, s.speeds, dts) && i < AXES && dts != []
    ensures var m := Updates(config, s, dts[..|dts| - 1]);
      && Driven(m) && m.target == s.target && m.speeds == s.speeds
      && (StillMoving(m.actual[i], m.target[i], Steps(config, m.speeds, dts[|dts| - 1])[i])
          <==> Abs(s.target[i] - s.actual[i]) > Travel(config, s.speeds[i], dts))
  {
    var before := dts[..|dts| - 1];
    var dt := dts[|dts| - 1];
    DistanceAfter(config, s, before, i);
    TravelForward(config, s.speeds[i], before);
    var m := Updates(config, s, before);
    StepForward(config, s.speeds[i], dt);
    var step := Steps(config, m.speeds, dt)[i];
    TravelMore(config, s.speeds[i], dts, step);
    LastStepMoves(s.actual[i], s.target[i], Travel(config, s.speeds[i], before), m.actual[i], step);
  }

  lemma AxesMove(config: Config, s: State, dts: seq<real>)
    requires Driven(s) && Forward(config, s.speeds, dts) && dts != []
    ensures var m := Updates(config, s, dts[..|dts| - 1]);
      && Driven(m)
      && (!AnyMoving(m.actual, m.target, Steps(config, m.speeds, dts[|dts| - 1]))
          <==> forall i :: 0 <= i < AXES ==> Abs(s.target[i] - s.actual[i]) <= Travel(config, s.speeds[i], dts))
  {
    var m := Updates(config, s, dts[..|dts| - 1]);
    AxisMoves(config, s, dts, 0);
    forall i | 0 <= i < AXES
      ensures StillMoving(m.actual[i], m.target[i], Steps(config, m.speeds, dts[|dts| - 1])[i])
              <==> Abs(s.target[i] - s.actual[i]) > Travel(config, s.speeds[i], dts)
    {
      AxisMoves(config, s, dts, i);
    }
  }

  /** After some updates the motion is reported as finished exactly when every axis can have come all the way. */
  lemma FinishedExactly(config: Config, s: State, dts: seq<real>)
    requires Driven(s) && Forward(config, s.speeds, dts) && dts != []
    ensures Updates(config, s, dts).device.motion == MOTION_REACHED <==>
            forall i :: 0 <= i < AXES ==> Abs(s.target[i] - s.actual[i]) <= Travel(config, s.speeds[i], dts)
  {
    AxesMove(config, s, dts);
    ReportKeepsMotion(config, Updates(config, s, dts[..|dts| - 1]), dts[|dts| - 1]);
  }

  lemma ReportKeepsMotion(config: Config, m: State, dt: real)
    requires Driven(m)
    ensures Update(config, m, dt).device.motion ==
            if AnyMoving(m.actual, m.target, Steps(config, m.speeds, dt)) then MOTION_MOVING else MOTION_REACHED
  {
  }

  lemma TimesMonotone(x: real, y: real, v: real, d: real)
    requires 0.0 <= v <= x && 0.0 <= d <= y
    ensures Times(v, d) <= Times(x, y)
  {
    assert x * y - v * d == (x - v) * y + v * (y - d);
  }

  lemma TimesSuccessor(n: nat, c: real)
    ensures Times((n + 1) as real, c) == Times(n as real, c) + c
  {
  }

  lemma SpeedAtLeast(config: Config, raw: uint8, v: real)
    requires config.minimumSpeed >= v && config.maximumSpeed >= v
    ensures RawSpeed(config, raw) >= v
  {
    var f := raw as real / 255.0;
    var low, high := config.minimumSpeed, config.maximumSpeed;
    if low < high {
      TimesPositive(high - low, f);
    } else {
      TimesPositive(low - high, 1.0 - f);
      Complement(low - high, f);
    }
  }

  predicate Spaced(dts: seq<real>, d: real) {
    forall k :: 0 <= k < |dts| ==> d <= dts[k]
  }

  lemma {:induction false} TravelAtLeast(config: Config, speed: uint8, dts: seq<real>, v: real, d: real)
    requires 0.0 <= v <= RawSpeed(config, speed) && 0.0 <= d && Spaced(dts, d)
    ensures Times(|dts| as real, Times(v, d)) <= Travel(config, speed, dts)
  {
    if dts != [] {
      var before := dts[..|dts| - 1];
      TravelAtLeast(config, speed, before, v, d);
      TimesSuccessor(|before|, Times(v, d));
      TimesMonotone(RawSpeed(config, speed), dts[|dts| - 1], v, d);
    }
  }

  /** With both configured speeds at least `v` and updates at least `d` apart, `n` updates cover `n * v * d`. */
  lemma ArrivesInTime(config: Config, s: State, dts: seq<real>, v: real, d: real)
    requires Driven(s) && dts != [] && 0.0 < v <= config.minimumSpeed && v <= config.maximumSpeed
    requires 0.0 <= d && Spaced(dts, d)
    requires forall i :: 0 <= i < AXES ==> Abs(s.target[i] - s.actual[i]) <= Times(|dts| as real, Times(v, d))
    ensures Updates(config, s, dts).device.motion == MOTION_REACHED
    ensures Updates(config, s, dts).actual == s.target
  {
    forall i | 0 <= i < AXES
      ensures RawSpeed(config, s.speeds[i]) >= 0.0
      ensures Abs(s.target[i] - s.actual[i]) <= Travel(config, s.speeds[i], dts)
    {
      SpeedAtLeast(config, s.speeds[i], v);
      TravelAtLeast(config, s.speeds[i], dts, v, d);
    }
    FinishedExactly(config, s, dts);
    AllThere(config, s, dts);
  }

  lemma AllThere(config: Config, s: State, dts: seq<real>)
    requires Driven(s) && Forward(config, s.speeds, dts)
    requires forall i :: 0 <= i < AXES ==> Abs(s.target[i] - s.actual[i]) <= Travel(config, s.speeds[i], dts)
    ensures Updates(config, s, dts).actual == s.target
  {
    forall i | 0 <= i < AXES
      ensures Updates(config, s, dts).actual[i] == s.target[i]
    {
      DistanceAfter(config, s, dts, i);
    }
  }

  // ---------------------------------------------------------------- exactly when it arrives at all

  /** The axis is driven towards its target, or is there and stays. */
  predicate AxisAble(config: Config, s: State, i: nat)
    requires i < AXES
  {
    var v := RawSpeed(config, s.speeds[i]);
    v > 0.0 || (v == 0.0 && s.actual[i] == s.target[i])
  }

  predicate Able(config: Config, s: State) {
    forall i :: 0 <= i < AXES ==> AxisAble(config, s, i)
  }

  predicate Reached(config: Config, s: State, dts: seq<real>) {
    Updates(config, s, dts).device.motion == MOTION_REACHED
  }

  /** After any `n` or more updates at least `d` apart the motion is reported as finished. */
  ghost predicate ReachedFrom(config: Config, s: State, d: real, n: nat) {
    forall dts: seq<real> :: |dts| >= n && Spaced(dts, d) ==> Reached(config, s, dts)
  }

  ghost predicate ArrivesSometime(config: Config, s: State, d: real) {
    exists n: nat :: ReachedFrom(config, s, d, n)
  }

  /** Steps of one length add up to any distance. */
  lemma Enough(distance: real, c: real) returns (n: nat)
    requires distance >= 0.0 && c > 0.0
    ensures distance <= Times(n as real, c)
  {
    var q := Over(distance, c);
    n := q.Floor + 1;
    TimesMonotone(n as real, c, q, c);
    assert Times(q, c) == distance;
  }

  /** How many updates take one axis to its target. */
  lemma AxisArrives(config: Config, s: State, d: real, i: nat) returns (n: nat)
    requires d > 0.0 && i < AXES && AxisAble(config, s, i)
    ensures forall dts: seq<real> :: |dts| >= n && Spaced(dts, d) ==>
              Abs(s.target[i] - s.actual[i]) <= Travel(config, s.speeds[i], dts)
  {
    var v := RawSpeed(config, s.speeds[i]);
    var way := Abs(s.target[i] - s.actual[i]);
    TimesPositive(v, d);
    n := 0;
    if v > 0.0 {
      TimesAbove(v, d);
      n := Enough(way, Times(v, d));
    }
    forall dts: seq<real> | |dts| >= n && Spaced(dts, d)
      ensures way <= Travel(config, s.speeds[i], dts)
    {
      TravelAtLeast(config, s.speeds[i], dts, v, d);
      TimesMonotone(|dts| as real, Times(v, d), n as real, Times(v, d));
      TimesPositive(|dts| as real, Times(v, d));
    }
  }

  lemma TimesAbove(x: real, y: real)
    requires x > 0.0 && y > 0.0
    ensures Times(x, y) > 0.0
  {
  }

  lemma AbleArrives(config: Config, s: State, d: real)
    requires Driven(s) && d > 0.0 && Able(config, s)
    ensures ArrivesSometime(config, s, d)
  {
    assert AxisAble(config, s, 0) && AxisAble(config, s, 1) && AxisAble(config, s, 2) && AxisAble(config, s, 3);
    var n0 := AxisArrives(config, s, d, 0);
    var n1 := AxisArrives(config, s, d, 1);
    var n2 := AxisArrives(config, s, d, 2);
    var n3 := AxisArrives(config, s, d, 3);
    var n := 1 + n0 + n1 + n2 + n3;
    forall dts: seq<real> | |dts| >= n && Spaced(dts, d)
      ensures Reached(config, s, dts)
    {
      FinishedExactly(config, s, dts);
    }
    assert ReachedFrom(config, s, d, n);
  }

  /** An axis that is not driven towards its target is never there: one step of it. */
  lemma UnableStep(actual: real, target: real, step: real)
    requires step < 0.0 || (step == 0.0 && actual != target)
    ensures StillMoving(actual, target, step)
    ensures step == 0.0 ==> Moved(actual, target, step) == actual
  {
  }

  lemma TimesSign(v: real, dt: real)
    requires dt > 0.0
    ensures v < 0.0 ==> Times(v, dt) < 0.0
    ensures v == 0.0 ==> Times(v, dt) == 0.0
  {
  }

  lemma UnableUpdate(config: Config, s: State, dt: real, i: nat)
    requires Driven(s) && dt > 0.0 && i < AXES && !AxisAble(config, s, i)
    ensures var s' := Update(config, s, dt);
      Driven(s') && !AxisAble(config, s', i) && s'.device.motion == MOTION_MOVING
  {
    TimesSign(RawSpeed(config, s.speeds[i]), dt);
    var step := UpdateAxis(config, s, dt, i);
    UnableStep(s.actual[i], s.target[i], step);
    assert StillMoving(s.actual[i], s.target[i], Steps(config, s.speeds, dt)[i]);
    ReportKeepsMotion(config, s, dt);
  }

  /** With such an axis the motion is reported as going on after any number of updates. */
  lemma {:induction false} UnableNeverArrives(config: Config, s: State, dts: seq<real>, i: nat)
    requires Driven(s) && i < AXES && !AxisAble(config, s, i)
    requires forall k :: 0 <= k < |dts| ==> dts[k] > 0.0
    ensures Driven(Updates(config, s, dts)) && !AxisAble(config, Updates(config, s, dts), i)
    ensures dts != [] ==> Updates(config, s, dts).device.motion == MOTION_MOVING
  {
    if dts != [] {
      UnableNeverArrives(config, s, dts[..|dts| - 1], i);
      UnableUpdate(config, Updates(config, s, dts[..|dts| - 1]), dts[|dts| - 1], i);
    }
  }

  /** A motion is reported as finished sooner or later if and only if every axis is driven towards its target or is there. */
  lemma ArrivesExactly(config: Config, s: State, d: real)
    requires Driven(s) && d > 0.0
    ensures ArrivesSometime(config, s, d) <==> Able(config, s)
  {
    if Able(config, s) {
      AbleArrives(config, s, d);
    } else {
      var i: nat :| i < AXES && !AxisAble(config, s, i);
      forall n: nat
        ensures !ReachedFrom(config, s, d, n)
      {
        var dts := seq(n + 1, k => d);
        UnableNeverArrives(config, s, dts, i);
        assert Spaced(dts, d) && !Reached(config, s, dts);
      }
    }
  }

  /** A command at full speed to the closed position. */
  const CLOSE := Command(1, Request(true, MODE_BASIC, true, false, false, false, false,
                                    Axis(255, 255, 255), ZERO_AXIS, ZERO_AXIS, ZERO_AXIS))

  /** With a maximum that is not positive the very first motion, asked for at full speed, never arrives. */
  lemma FullSpeedUnable(config: Config)
    requires config.maximumSpeed <= 0.0
    ensures var s := Receive(config, INITIAL, CLOSE); Driven(s) && !Able(config, s)
  {
    var s := Receive(config, INITIAL, CLOSE);
    TimesOne(config.maximumSpeed - config.minimumSpeed);
    assert RawSpeed(config, 255) == config.maximumSpeed;
    assert !AxisAble(config, s, 0);
  }

  /** Every motion arrives, whatever is asked for, if and only if the configured maximum speed is positive. */
  lemma AllArriveExactly(config: Config, d: real)
    requires Allowed(config) && d > 0.0
    ensures config.maximumSpeed > 0.0 <==> forall s: State :: Driven(s) ==> ArrivesSometime(config, s, d)
  {
    if config.maximumSpeed > 0.0 {
      forall s: State | Driven(s)
        ensures ArrivesSometime(config, s, d)
      {
        SpeedsPositive(config);
        ArrivesExactly(config, s, d);
      }
    } else {
      FullSpeedUnable(config);
      ArrivesExactly(config, Receive(config, INITIAL, CLOSE), d);
    }
  }
}
