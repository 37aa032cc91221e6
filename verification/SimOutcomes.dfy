/**
 * What the simulated gripper does with a command: where each axis goes and how fast, what the statuses report on the
 * way, and that they are the answers the controller waits for.
 */
module SimOutcomes {
  import opened Backend
  import opened Messages
  import opened Rounding
  import opened SimBackend
  import opened SimMotion
  import SimRuns
  import Controller
  import ControllerOutcomes

  // ---------------------------------------------------------------- where an axis goes, and how fast

  /** Scissor mode without the scissor's own control: finger A's position is the scissor's. */
  predicate ScissorAlone(r: Request) {
    r.mode == 3 && !r.individualScissor
  }

  /** Where a command sends the fingers and the scissor. */
  predicate SentTo(config: Config, r: Request, x: Axes) {
    && x[0] == (if ScissorAlone(r) then 6.0 else r.a.position as real)
    && x[1] == (if ScissorAlone(r) then 6.0 else if r.individualFingers then r.b.position as real else r.a.position as real)
    && x[2] == (if ScissorAlone(r) then 6.0 else if r.individualFingers then r.c.position as real else r.a.position as real)
    && (r.individualScissor ==> x[3] == r.scissor.position as real)
    && (!r.individualScissor && r.mode == 0 ==> x[3] == config.basic as real)
    && (!r.individualScissor && r.mode == 1 ==> x[3] == config.pinch as real)
    && (!r.individualScissor && r.mode == 2 ==> x[3] == config.wide as real)
    && (!r.individualScissor && r.mode == 3 ==> x[3] == r.a.position as real)
  }

  /** The raw speed byte that counts for an axis. */
  predicate SpeedFor(r: Request, i: nat, speed: uint8) {
    && (i == 0 ==> speed == r.a.speed)
    && (i == 1 ==> speed == if r.individualFingers then r.b.speed else r.a.speed)
    && (i == 2 ==> speed == if r.individualFingers then r.c.speed else r.a.speed)
    && (i == 3 ==> speed == if r.individualScissor then r.scissor.speed else r.a.speed)
  }

  /** A command that the simulator heeds and that asks for a motion. */
  predicate AsksToMove(c: Command) {
    c.id != 0 && c.request.mode <= 3 && c.request.activate && c.request.goTo
  }

  lemma MotionBegins(config: Config, s: State, c: Command)
    requires AsksToMove(c)
    ensures var u := Receive(config, s, c);
      && Driven(u) && u.actual == s.actual && SentTo(config, c.request, u.target)
      && (forall i :: 0 <= i < 4 ==> SpeedFor(c.request, i, u.speeds[i]))
  {
  }

  lemma {:induction false} UpdatesKeepTarget(config: Config, s: State, dts: seq<real>)
    requires Driven(s)
    ensures var t := Updates(config, s, dts); Driven(t) && t.target == s.target && t.speeds == s.speeds
  {
    if dts != [] {
      UpdatesKeepTarget(config, s, dts[..|dts| - 1]);
    }
  }

  lemma FinishedIsThere(config: Config, s: State, dt: real)
    requires Driven(s)
    ensures var t := Update(config, s, dt);
      t.target == s.target && (t.device.motion == 3 ==> t.actual == t.target) && (t.device.motion == 3 || t.device.motion == 0)
  {
    if !InMotion(config, s, dt) {
      SimRuns.NotMovingArrived(s.actual, s.target, Steps(config, s.speeds, dt));
    }
  }

  /** From any state: once a motion is reported as finished, every axis is exactly where its command sends it. */
  lemma ArrivesWhereSent(config: Config, s: State, c: Command, dts: seq<real>)
    requires AsksToMove(c) && dts != []
    ensures var t := Updates(config, Receive(config, s, c), dts);
      t.device.motion == 3 ==> SentTo(config, c.request, t.actual)
  {
    var u := Receive(config, s, c);
    MotionBegins(config, s, c);
    UpdatesKeepTarget(config, u, dts[..|dts| - 1]);
    FinishedIsThere(config, Updates(config, u, dts[..|dts| - 1]), dts[|dts| - 1]);
  }

  /** The way to `target` is shorter by `step`, and no further than the target. */
  predicate Approaches(actual: real, target: real, step: real, after: real) {
    && Abs(target - after) == (if Abs(target - actual) <= step then 0.0 else Abs(target - actual) - step)
    && (actual <= target ==> actual <= after <= target)
    && (actual >= target ==> actual >= after >= target)
  }

  /** The speed in raw units per second that lies between the two configured ones as the byte does between 0 and 255. */
  predicate SpeedOf(config: Config, byte: uint8, v: real) {
    255.0 * (v - config.minimumSpeed) == (config.maximumSpeed - config.minimumSpeed) * byte as real
  }

  /**
   * From any state: one update after a motion command, each axis has gone its way by the time that passed at the
   * speed that its raw speed byte stands for.
   */
  lemma MovesAtItsSpeed(config: Config, s: State, c: Command, dt: real, i: nat, target: Axes, byte: uint8, v: real)
    requires AsksToMove(c) && i < 4 && SentTo(config, c.request, target) && SpeedFor(c.request, i, byte)
    requires SpeedOf(config, byte, v) && v * dt >= 0.0
    ensures Approaches(s.actual[i], target[i], v * dt, Update(config, Receive(config, s, c), dt).actual[i])
  {
    var u := Receive(config, s, c);
    MotionBegins(config, s, c);
    var step := UpdateAxis(config, u, dt, i);
    SameSpeed(c.request, i, byte, u.speeds[i]);
    SpeedIs(config, byte, v);
    ProductIs(v, dt);
    SameTarget(config, c.request, i, target, u.target);
    Nearer(s.actual[i], target[i], step);
  }

  lemma ProductIs(x: real, y: real)
    ensures Times(x, y) == x * y
  {
  }

  lemma SpeedIs(config: Config, byte: uint8, v: real)
    requires SpeedOf(config, byte, v)
    ensures RawSpeed(config, byte) == v
  {
    Scaled(config.maximumSpeed - config.minimumSpeed, byte as real, v - config.minimumSpeed);
  }

  lemma Scaled(d: real, b: real, x: real)
    requires 255.0 * x == d * b
    ensures Times(d, b / 255.0) == x
  {
    assert d * (b / 255.0) * 255.0 == d * b;
  }

  lemma SameSpeed(r: Request, i: nat, speed: uint8, speed': uint8)
    requires i < 4 && SpeedFor(r, i, speed) && SpeedFor(r, i, speed')
    ensures speed == speed'
  {
  }

  lemma SameTarget(config: Config, r: Request, i: nat, x: Axes, y: Axes)
    requires i < 4 && r.mode <= 3 && SentTo(config, r, x) && SentTo(config, r, y)
    ensures x[i] == y[i]
  {
    assert r.mode == 0 || r.mode == 1 || r.mode == 2 || r.mode == 3;
  }

  lemma Nearer(actual: real, target: real, step: real)
    requires step >= 0.0
    ensures Approaches(actual, target, step, Moved(actual, target, step))
  {
    MovedShortens(actual, target, step);
  }

  // ---------------------------------------------------------------- what is reported

  /** The byte nearest to a position. */
  predicate Nearest(raw: uint8, x: real) {
    && (0.0 <= x <= 255.0 ==> Abs(raw as real - x) <= 0.5)
    && (x < 0.0 ==> raw == 0)
    && (x > 255.0 ==> raw == 255)
  }

  lemma ToRawNearest(x: real)
    ensures Nearest(ToRaw(x), x)
  {
    RoundEvenNear(x);
  }

  /** Every published status has the positions to the nearest byte, and every axis as moving exactly while one still does. */
  lemma StatusShowsPositions(config: Config, s: State, dt: real)
    ensures var t := Update(config, s, dt); var d := t.device;
      && Nearest(d.a.actual, t.actual[0]) && Nearest(d.b.actual, t.actual[1])
      && Nearest(d.c.actual, t.actual[2]) && Nearest(d.scissor.actual, t.actual[3])
      && d.a.contact == d.b.contact == d.c.contact == d.scissor.contact
      && (Driven(s) ==> d.a.contact == d.motion) && (!Driven(s) ==> d.a.contact == 3 && t.actual == s.actual)
  {
    var t := Update(config, s, dt);
    ToRawNearest(t.actual[0]);
    ToRawNearest(t.actual[1]);
    ToRawNearest(t.actual[2]);
    ToRawNearest(t.actual[3]);
  }

  // ---------------------------------------------------------------- the answers the controller waits for

  /** A status after a command names it and, for a clear or an activating one, reports what the controller waits for. */
  lemma AnswersActivation(config: Config, s: State, c: Command, dt: real)
    requires c.id != 0
    ensures var status := StatusOf(Update(config, Receive(config, s, c), dt)); var d := status.device;
      && status.connected && status.connection == 1
      && (c.request.mode <= 3 ==> status.lastCommand == c.id)
      && (ControllerOutcomes.Clear(c.request) ==> !d.activated && d.initialization == 0)
      && (forall mode: uint8 :: mode <= 3 && ControllerOutcomes.Activates(c.request, mode) ==> ControllerOutcomes.ReadyIn(d, mode))
  {
  }

  /** What is left of the device when the positions and the state of the motion are put aside. */
  predicate SameRequest(d: Device, e: Device) {
    && d.activated == e.activated && d.mode == e.mode && d.goTo == e.goTo && d.initialization == e.initialization
    && d.fault == e.fault && d.a.requested == e.a.requested && d.b.requested == e.b.requested
    && d.c.requested == e.c.requested && d.scissor.requested == e.scissor.requested
  }

  lemma {:induction false} UpdatesKeepRequest(config: Config, s: State, dts: seq<real>)
    ensures SameRequest(Updates(config, s, dts).device, s.device) && Updates(config, s, dts).lastCommand == s.lastCommand
  {
    if dts != [] {
      UpdatesKeepRequest(config, s, dts[..|dts| - 1]);
    }
  }

  /**
   * After the command of a motion goal, every status names it, and is what the controller waits for exactly when
   * the motion is reported as finished or the gripper had a fault before.
   */
  lemma AnswersMotion(config: Config, s: State, c: Command, g: Controller.Goal, dts: seq<real>)
    requires c.id != 0 && g.mode <= 3 && ControllerOutcomes.Carries(c.request, g, true) && dts != []
    ensures var status := StatusOf(Updates(config, Receive(config, s, c), dts));
      && status.connected && status.lastCommand == c.id
      && (ControllerOutcomes.Reports(status.device, g) <==> status.device.motion == 3 || s.device.fault >= 9)
  {
    var u := Receive(config, s, c);
    MotionBegins(config, s, c);
    UpdatesKeepRequest(config, u, dts);
    UpdatesKeepTarget(config, u, dts[..|dts| - 1]);
    FinishedIsThere(config, Updates(config, u, dts[..|dts| - 1]), dts[|dts| - 1]);
    assert u.device.fault == s.device.fault;
  }

  /** A command without go-to leaves every axis where it is from then on, and reports the motion as finished. */
  lemma {:induction false} StopsWhereItIs(config: Config, s: State, c: Command, dts: seq<real>)
    requires c.id != 0 && c.request.mode <= 3 && !c.request.goTo
    ensures var t := Updates(config, Receive(config, s, c), dts); t.actual == s.actual && t.device.motion == 3
  {
    var u := Receive(config, s, c);
    if dts != [] {
      StopsWhereItIs(config, s, c, dts[..|dts| - 1]);
      UpdatesKeepRequest(config, u, dts[..|dts| - 1]);
    }
  }

  /** A command with id 0 or another mode changes nothing. */
  lemma OthersIgnored(config: Config, s: State, c: Command)
    requires c.id == 0 || c.request.mode > 3
    ensures Receive(config, s, c) == s
  {
  }

  /** Before any command, every status reports the gripper as reset and at rest, open and with the scissor in its middle. */
  lemma {:induction false} StartsAtHome(config: Config, dts: seq<real>)
    ensures var t := Updates(config, INITIAL, dts); var d := t.device;
      && t.actual == [6.0, 6.0, 6.0, 137.0] && t.lastCommand == 0
      && !d.activated && !d.goTo && d.initialization == 0 && d.motion == 3 && d.fault == 0
      && (dts != [] ==> d.a.actual == 6 && d.b.actual == 6 && d.c.actual == 6 && d.scissor.actual == 137)
  {
    if dts != [] {
      StartsAtHome(config, dts[..|dts| - 1]);
      RoundEvenInteger(6);
      RoundEvenInteger(137);
    }
  }
}
