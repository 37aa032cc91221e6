/** The simulated gripper: the command handler and the timer callback of the Gazebo backend. */
module SimBackend {
  import opened Backend
  import opened Messages
  import opened Rounding

  const AXES := 4

  datatype Config = Config(minimumSpeed: real, maximumSpeed: real, basic: int, pinch: int, wide: int)

  /** What the constructor demands of the parameters. */
  predicate Allowed(config: Config) {
    config.minimumSpeed > 0.0
  }

  type Axes = s: seq<real> | |s| == AXES witness [0.0, 0.0, 0.0, 0.0]

  type Speeds = s: seq<uint8> | |s| == AXES witness [0, 0, 0, 0]

  const HOME: Axes := [6.0, 6.0, 6.0, 137.0]

  /** The status under construction and the three lists of the node. */
  datatype State = State(device: Device, lastCommand: nat, actual: Axes, target: Axes, speeds: Speeds)

  const INITIAL := State(ZERO_DEVICE.(motion := MOTION_REACHED), 0, HOME, HOME, [255, 255, 255, 255])

  // ---------------------------------------------------------------- commands

  /** The scissor position a mode stands for; modes without one use the basic default. */
  function ModeScissor(config: Config, mode: uint8): real {
    if mode == MODE_BASIC then config.basic as real
    else if mode == MODE_PINCH then config.pinch as real
    else if mode == MODE_WIDE then config.wide as real
    else 137.0
  }

  function Targets(config: Config, r: Request): Axes {
    var a := r.a.position as real;
    if r.mode == MODE_SCISSOR && !r.individualScissor then [6.0, 6.0, 6.0, a]
    else
      [a,
       if r.individualFingers then r.b.position as real else a,
       if r.individualFingers then r.c.position as real else a,
       if r.individualScissor then r.scissor.position as real else ModeScissor(config, r.mode)]
  }

  function RequestSpeeds(r: Request): Speeds {
    [r.a.speed,
     if r.individualFingers then r.b.speed else r.a.speed,
     if r.individualFingers then r.c.speed else r.a.speed,
     if r.individualScissor then r.scissor.speed else r.a.speed]
  }

  predicate Heeded(c: Command) {
    c.id != 0 && c.request.mode <= MODE_SCISSOR
  }

  /** The status fields that every heeded command sets. */
  function Noted(d: Device, r: Request): Device {
    d.(mode := r.mode, goTo := r.goTo,
       a := d.a.(requested := r.a.position), b := d.b.(requested := r.b.position),
       c := d.c.(requested := r.c.position), scissor := d.scissor.(requested := r.scissor.position))
  }

  function Receive(config: Config, s: State, c: Command): State {
    var r := c.request;
    if !Heeded(c) then s
    else
      var u := s.(lastCommand := c.id, device := Noted(s.device, r));
      if !r.activate then
        u.(device := u.device.(activated := false, initialization := INITIALIZATION_RESET, motion := MOTION_REACHED))
      else
        var d := u.device.(activated := true, initialization := INITIALIZATION_READY);
        if !r.goTo then u.(target := s.actual, device := d.(motion := MOTION_REACHED))
        else
          u.(target := Targets(config, r), speeds := RequestSpeeds(r), device := d.(motion := MOTION_MOVING))
  }

  // ---------------------------------------------------------------- motion

  function RawSpeed(config: Config, raw: uint8): real {
    config.minimumSpeed + Times(config.maximumSpeed - config.minimumSpeed, raw as real / 255.0)
  }

  /** `math.copysign`. */
  function CopySign(x: real, y: real): real {
    if y < 0.0 then -Abs(x) else Abs(x)
  }

  predicate StillMoving(actual: real, target: real, step: real) {
    Abs(target - actual) > step
  }

  function Moved(actual: real, target: real, step: real): real {
    if StillMoving(actual, target, step) then actual + CopySign(step, target - actual) else target
  }

  /** How far each axis may move in one update. */
  function Steps(config: Config, speeds: Speeds, dt: real): Axes {
    seq(AXES, i requires 0 <= i < AXES => Times(RawSpeed(config, speeds[i]), dt))
  }

  function MovedAll(actual: Axes, target: Axes, steps: Axes): Axes {
    seq(AXES, i requires 0 <= i < AXES => Moved(actual[i], target[i], steps[i]))
  }

  predicate AnyMoving(actual: Axes, target: Axes, steps: Axes) {
    exists i :: 0 <= i < AXES && StillMoving(actual[i], target[i], steps[i])
  }

  predicate Driven(s: State) {
    s.device.activated && s.device.goTo
  }

  predicate InMotion(config: Config, s: State, dt: real) {
    Driven(s) && AnyMoving(s.actual, s.target, Steps(config, s.speeds, dt))
  }

  /** The timer callback up to publishing. */
  function Advance(config: Config, s: State, dt: real): State {
    if !Driven(s) then s
    else
      s.(actual := MovedAll(s.actual, s.target, Steps(config, s.speeds, dt)),
         device := s.device.(motion := if InMotion(config, s, dt) then MOTION_MOVING else MOTION_REACHED))
  }

  function ToRaw(x: real): uint8 {
    var n := RoundEven(x);
    if n > 255 then 255 else if n < 0 then 0 else n
  }

  function Reported(r: Reading, actual: real, moving: bool): Reading {
    r.(actual := ToRaw(actual), contact := if moving then OBJECT_MOVING else OBJECT_REACHED)
  }

  /** The timer callback's publishing part. */
  function Report(s: State, moving: bool): State {
    var d := s.device;
    s.(device := d.(a := Reported(d.a, s.actual[0], moving), b := Reported(d.b, s.actual[1], moving),
                    c := Reported(d.c, s.actual[2], moving), scissor := Reported(d.scissor, s.actual[3], moving)))
  }

  /** The whole timer callback. */
  function Update(config: Config, s: State, dt: real): State {
    Report(Advance(config, s, dt), InMotion(config, s, dt))
  }

  function StatusOf(s: State): Status {
    Status(true, 1, s.lastCommand, s.device)
  }

  // ---------------------------------------------------------------- the node

  class Node {
    const config: Config
    const actual: array<real>
    var target: Axes
    var speeds: Speeds
    var device: Device
    var lastCommand: nat
    var lastUpdate: real
    var published: seq<Status>

    ghost predicate Valid()
      reads this
    {
      actual.Length == AXES
    }

    ghost function Contents(): State
      requires Valid()
      reads this, actual
    {
      State(device, lastCommand, actual[..], target, speeds)
    }

    constructor (config: Config, now: real)
      ensures Valid() && Contents() == INITIAL && fresh(actual)
      ensures this.config == config && lastUpdate == now && published == []
    {
      this.config := config;
      actual := new real[AXES](i requires 0 <= i < AXES => HOME[i]);
      target := HOME;
      speeds := [255, 255, 255, 255];
      device := ZERO_DEVICE.(motion := MOTION_REACHED);
      lastCommand := 0;
      lastUpdate := now;
      published := [];
      new;
      assert actual[..] == HOME;
    }

    method ReceiveCommand(c: Command)
      requires Valid()
      modifies this`target, this`speeds, this`device, this`lastCommand
      ensures Valid() && Contents() == Receive(config, old(Contents()), c)
    {
      var r := c.request;
      if c.id == 0 || r.mode > MODE_SCISSOR {
        return;
      }
      lastCommand := c.id;
      device := Noted(device, r);
      if !r.activate {
        device := device.(activated := false, initialization := INITIALIZATION_RESET, motion := MOTION_REACHED);
        return;
      }
      device := device.(activated := true, initialization := INITIALIZATION_READY);
      if !r.goTo {
        target := actual[..];
        device := device.(motion := MOTION_REACHED);
        return;
      }
      target := Targets(config, r);
      speeds := RequestSpeeds(r);
      device := device.(motion := MOTION_MOVING);
    }

    /** The loop over the axes. */
    method MoveAxes(dt: real) returns (moving: bool)
      requires Valid()
      modifies actual
      ensures actual[..] == MovedAll(old(actual[..]), target, Steps(config, speeds, dt))
      ensures moving == AnyMoving(old(actual[..]), target, Steps(config, speeds, dt))
    {
      ghost var from: Axes := actual[..];
      ghost var steps := Steps(config, speeds, dt);
      moving := false;
      var index := 0;
      while index < AXES
        invariant 0 <= index <= AXES
        invariant forall i :: 0 <= i < index ==> actual[i] == Moved(from[i], target[i], steps[i])
        invariant forall i :: index <= i < AXES ==> actual[i] == from[i]
        invariant moving <==> exists i :: 0 <= i < index && StillMoving(from[i], target[i], steps[i])
      {
        var moved := MoveAxis(index, Times(RawSpeed(config, speeds[index]), dt));
        moving := moving || moved;
        index := index + 1;
      }
      assert forall i :: 0 <= i < AXES ==> actual[..][i] == MovedAll(from, target, steps)[i];
    }

    /** The body of the loop. */
    method MoveAxis(index: nat, step: real) returns (moved: bool)
      requires Valid() && index < AXES
      modifies actual
      ensures actual[index] == Moved(old(actual[index]), target[index], step)
      ensures moved == StillMoving(old(actual[index]), target[index], step)
      ensures forall i :: 0 <= i < AXES && i != index ==> actual[i] == old(actual[i])
    {
      var error := target[index] - actual[index];
      moved := Abs(error) > step;
      if moved {
        actual[index] := actual[index] + CopySign(step, error);
      } else {
        actual[index] := target[index];
      }
    }

    method PublishStatus(moving: bool)
      requires Valid()
      modifies this`device, this`published
      ensures Valid() && Contents() == Report(old(Contents()), moving)
      ensures published == old(published) + [StatusOf(Contents())]
    {
      device := device.(
        a := Reported(device.a, actual[0], moving), b := Reported(device.b, actual[1], moving),
        c := Reported(device.c, actual[2], moving), scissor := Reported(device.scissor, actual[3], moving));
      published := published + [Status(true, 1, lastCommand, device)];
    }

    /** The timer callback; time that runs backwards counts as no time. */
    method TimerCallback(now: real)
      requires Valid()
      modifies this`device, this`published, this`lastUpdate, actual
      ensures Valid() && lastUpdate == now
      ensures Contents() == Update(config, old(Contents()), if now < old(lastUpdate) then 0.0 else now - old(lastUpdate))
      ensures published == old(published) + [StatusOf(Contents())]
    {
      ghost var s := Contents();
      var dt := if now < lastUpdate then 0.0 else now - lastUpdate;
      lastUpdate := now;
      var moving := false;
      if device.activated && device.goTo {
        moving := MoveAxes(dt);
        device := device.(motion := if moving then MOTION_MOVING else MOTION_REACHED);
      }
      assert Contents().actual == Advance(config, s, dt).actual;
      assert Contents() == Advance(config, s, dt);
      PublishStatus(moving);
    }
  }
}
