/** Where the simulated axes can be: within the raw range, given a sensible configuration. */
module SimRange {
  import opened Messages
  import opened Rounding
  import opened SimBackend
  import SimMotion
  import opened SimRuns

  predicate InRange(x: Axes) {
    forall i :: 0 <= i < AXES ==> 0.0 <= x[i] <= 255.0
  }

  predicate ModesInRange(config: Config) {
    0 <= config.basic <= 255 && 0 <= config.pinch <= 255 && 0 <= config.wide <= 255
  }

  /** Time does not run backwards between two timer callbacks, as the callback sees to. */
  predicate Timely(run: seq<Label>) {
    forall k :: 0 <= k < |run| && run[k].Tick? ==> run[k].dt >= 0.0
  }

  lemma TargetsInRange(config: Config, r: Request)
    requires ModesInRange(config)
    ensures InRange(Targets(config, r))
  {
  }

  lemma ReceiveInRange(config: Config, s: SimBackend.State, c: Command)
    requires ModesInRange(config) && InRange(s.actual) && InRange(s.target)
    ensures InRange(SimBackend.Receive(config, s, c).actual) && InRange(SimBackend.Receive(config, s, c).target)
  {
    TargetsInRange(config, c.request);
  }

  lemma MovedInRange(actual: Axes, target: Axes, steps: Axes)
    requires InRange(actual) && InRange(target)
    requires forall i :: 0 <= i < AXES ==> steps[i] >= 0.0
    ensures InRange(MovedAll(actual, target, steps))
  {
    forall i | 0 <= i < AXES
      ensures 0.0 <= MovedAll(actual, target, steps)[i] <= 255.0
    {
      SimMotion.MovedShortens(actual[i], target[i], steps[i]);
    }
  }

  lemma UpdateInRange(config: Config, s: SimBackend.State, dt: real)
    requires Allowed(config) && config.maximumSpeed >= 0.0 && dt >= 0.0 && InRange(s.actual) && InRange(s.target)
    ensures InRange(Update(config, s, dt).actual) && Update(config, s, dt).target == s.target
  {
    var steps := Steps(config, s.speeds, dt);
    forall i | 0 <= i < AXES
      ensures steps[i] >= 0.0
    {
      SimMotion.SpeedAtLeast(config, s.speeds[i], 0.0);
      SimMotion.StepForward(config, s.speeds[i], dt);
    }
    MovedInRange(s.actual, s.target, steps);
  }

  lemma {:induction false} StaysInRange(config: Config, run: seq<Label>)
    requires Allowed(config) && ModesInRange(config) && config.maximumSpeed >= 0.0 && Timely(run)
    ensures InRange(After(config, run).sim.actual) && InRange(After(config, run).sim.target)
  {
    if run != [] {
      var before := run[..|run| - 1];
      StaysInRange(config, before);
      match run[|run| - 1]
      case Receive(c) => ReceiveInRange(config, After(config, before).sim, c);
      case Tick(dt) => UpdateInRange(config, After(config, before).sim, dt);
    }
  }

  // ---------------------------------------------------------------- other configurations

  /** A motion in some mode, at the lowest speed or at full speed. */
  function Motion(mode: uint8, speed: uint8): Command {
    Command(1, Request(true, mode, true, false, false, false, false, Axis(255, speed, 255), ZERO_AXIS, ZERO_AXIS, ZERO_AXIS))
  }

  lemma After2(config: Config, c: Command, dt: real)
    requires Heeded(c)
    ensures After(config, [Receive(c), Tick(dt)]).sim == Update(config, SimBackend.Receive(config, SimBackend.INITIAL, c), dt)
  {
    var run := [Receive(c), Tick(dt)];
    assert run[..1] == [Receive(c)] && run[..1][..0] == [];
    assert After(config, run[..1]).sim == SimBackend.Receive(config, SimBackend.INITIAL, c);
  }

  lemma TimesOver(x: real, v: real)
    requires v != 0.0
    ensures Times(v, Over(x, v)) == x
  {
  }

  lemma MotionStarts(config: Config, mode: uint8, speed: uint8)
    requires mode < MODE_SCISSOR
    ensures var s := SimBackend.Receive(config, SimBackend.INITIAL, Motion(mode, speed));
      && Driven(s) && s.actual == HOME && s.target[0] == 255.0 && s.target[3] == ModeScissor(config, mode)
      && s.speeds[0] == speed && s.speeds[3] == speed
  {
  }

  /** One timer callback after the command, an axis has made the one step. */
  lemma OneStep(config: Config, mode: uint8, speed: uint8, dt: real, step: real, i: nat)
    requires mode < MODE_SCISSOR && (i == 0 || i == 3) && step == Times(RawSpeed(config, speed), dt)
    ensures var s := SimBackend.Receive(config, SimBackend.INITIAL, Motion(mode, speed));
      After(config, [Receive(Motion(mode, speed)), Tick(dt)]).sim.actual[i] == Moved(HOME[i], s.target[i], step)
    ensures dt >= 0.0 ==> Timely([Receive(Motion(mode, speed)), Tick(dt)])
  {
    MotionStarts(config, mode, speed);
    After2(config, Motion(mode, speed), dt);
    var moved := SimMotion.UpdateAxis(config, SimBackend.Receive(config, SimBackend.INITIAL, Motion(mode, speed)), dt, i);
  }

  /** A mode's scissor position is where the axis is sent, and in time it gets there. */
  lemma ModeReached(config: Config, mode: uint8) returns (run: seq<Label>)
    requires Allowed(config) && mode < MODE_SCISSOR
    ensures Timely(run) && After(config, run).sim.actual[3] == ModeScissor(config, mode)
  {
    var way := Abs(ModeScissor(config, mode) - HOME[3]);
    var dt := Over(way, config.minimumSpeed);
    SlowestSpeed(config);
    TimesOver(way, config.minimumSpeed);
    run := [Receive(Motion(mode, 0)), Tick(dt)];
    MotionStarts(config, mode, 0);
    OneStep(config, mode, 0, dt, way, 3);
    OverPositive(way, config.minimumSpeed);
  }

  lemma OverPositive(x: real, v: real)
    requires v != 0.0 && (x >= 0.0 <==> v > 0.0)
    ensures Over(x, v) >= 0.0
  {
  }

  lemma SlowestSpeed(config: Config)
    ensures RawSpeed(config, 0) == config.minimumSpeed
  {
    TimesNothing(config.maximumSpeed - config.minimumSpeed);
    assert 0 as real / 255.0 == 0.0;
  }

  lemma TimesNothing(x: real)
    ensures Times(x, 0.0) == 0.0
  {
  }

  /** At a negative speed the axes run past any position. */
  lemma RunsAway(config: Config) returns (run: seq<Label>)
    requires config.maximumSpeed < 0.0
    ensures Timely(run) && After(config, run).sim.actual[0] > 255.0
  {
    var dt := Over(-255.0, config.maximumSpeed);
    SimMotion.TimesOne(config.maximumSpeed - config.minimumSpeed);
    assert RawSpeed(config, 255) == config.maximumSpeed;
    TimesOver(-255.0, config.maximumSpeed);
    OverPositive(-255.0, config.maximumSpeed);
    run := [Receive(Motion(MODE_BASIC, 255)), Tick(dt)];
    MotionStarts(config, MODE_BASIC, 255);
    OneStep(config, MODE_BASIC, 255, dt, -255.0, 0);
    MovedAway(HOME[0], 255.0, -255.0);
  }

  lemma MovedAway(actual: real, target: real, step: real)
    requires step < 0.0 && actual <= target
    ensures Moved(actual, target, step) == actual - step
  {
  }

  /** No axis leaves the raw range in any run if and only if the modes' scissor positions are in it and no speed is negative. */
  lemma InRangeExactly(config: Config)
    requires Allowed(config)
    ensures (forall run: seq<Label> :: Timely(run) ==> InRange(After(config, run).sim.actual))
            <==> ModesInRange(config) && config.maximumSpeed >= 0.0
  {
    if ModesInRange(config) && config.maximumSpeed >= 0.0 {
      forall run: seq<Label> | Timely(run)
        ensures InRange(After(config, run).sim.actual)
      {
        StaysInRange(config, run);
      }
    } else if config.maximumSpeed < 0.0 {
      var run := RunsAway(config);
      assert !InRange(After(config, run).sim.actual);
    } else {
      var mode := if 0 <= config.basic <= 255 then (if 0 <= config.pinch <= 255 then MODE_WIDE else MODE_PINCH) else MODE_BASIC;
      var run := ModeReached(config, mode);
      assert !InRange(After(config, run).sim.actual);
    }
  }
}
