/** The command and status messages of the three-finger gripper and their process images. */
module Messages {
  type uint8 = n: int | 0 <= n < 0x100

  const WRAP := 0x1_0000_0000_0000_0000

  const MODE_BASIC: uint8 := 0
  const MODE_PINCH: uint8 := 1
  const MODE_WIDE: uint8 := 2
  const MODE_SCISSOR: uint8 := 3

  const INITIALIZATION_RESET: uint8 := 0
  const INITIALIZATION_READY: uint8 := 3

  const MOTION_MOVING: uint8 := 0
  const MOTION_PARTIAL_CONTACT: uint8 := 1
  const MOTION_ALL_CONTACT: uint8 := 2
  const MOTION_REACHED: uint8 := 3

  const OBJECT_MOVING: uint8 := 0
  const OBJECT_REACHED: uint8 := 3

  const FIRST_FAULT: uint8 := 0x09

  /** The request of one axis. */
  datatype Axis = Axis(position: uint8, speed: uint8, force: uint8)

  /** What a command asks of the gripper, without its id. */
  datatype Request = Request(
    activate: bool, mode: uint8, goTo: bool, automaticRelease: bool,
    gloveMode: bool, individualFingers: bool, individualScissor: bool,
    a: Axis, b: Axis, c: Axis, scissor: Axis)

  datatype Command = Command(id: nat, request: Request)

  const ZERO_AXIS := Axis(0, 0, 0)

  /** A default-constructed message. */
  const ZERO_REQUEST :=
    Request(false, 0, false, false, false, false, false, ZERO_AXIS, ZERO_AXIS, ZERO_AXIS, ZERO_AXIS)

  /** What the gripper reports of one axis. */
  datatype Reading = Reading(contact: uint8, requested: uint8, actual: uint8, current: uint8)

  /** What one register read reports. */
  datatype Device = Device(
    activated: bool, mode: uint8, goTo: bool, initialization: uint8, motion: uint8, fault: uint8,
    a: Reading, b: Reading, c: Reading, scissor: Reading)

  const ZERO_READING := Reading(0, 0, 0, 0)
  const ZERO_DEVICE := Device(false, 0, false, 0, 0, 0, ZERO_READING, ZERO_READING, ZERO_READING, ZERO_READING)

  datatype Status = Status(connected: bool, connection: nat, lastCommand: nat, device: Device)
}
