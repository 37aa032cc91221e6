/** The Modbus RTU frames of the serial drivers and the check both receivers make. */
module ModbusFrames {
  import opened CrcRegister

  const BUFFER_SIZE := 1024
  const SENSOR_SLAVE: byte := 9
  const READ_REGISTERS: byte := 0x03
  const WRITE_REGISTERS: byte := 0x10

  function ByteOf(x: nat): byte { (x % 256) as byte }

  function WordOf(hi: byte, lo: byte): word { (hi as word << 8) + lo as word }

  /** A body closed with its checksum, low byte first. */
  function Sealed(body: seq<byte>): seq<byte> {
    body + [LowByte(Crc16(body)), HighByte(Crc16(body))]
  }

  /** The six bytes that both requests start with. */
  function Head(slave: byte, functionCode: byte, first: word, registers: nat): seq<byte> {
    [slave, functionCode, HighByte(first), LowByte(first), ByteOf(registers / 256), ByteOf(registers)]
  }

  function ReadBody(slave: byte, first: word, registers: nat): seq<byte> {
    Head(slave, READ_REGISTERS, first, registers)
  }

  function WriteBody(slave: byte, first: word, registers: nat, payload: seq<byte>): seq<byte> {
    Head(slave, WRITE_REGISTERS, first, registers) + [ByteOf(2 * registers)] + payload
  }

  /** Big-endian bytes of a list of registers. */
  function RegisterBytes(data: seq<word>): (bytes: seq<byte>)
    ensures |bytes| == 2 * |data|
    decreases |data|
  {
    if data == [] then []
    else RegisterBytes(data[..|data| - 1]) + [HighByte(data[|data| - 1]), LowByte(data[|data| - 1])]
  }

  function Padded(data: seq<byte>): seq<byte> {
    if |data| % 2 == 0 then data else data + [0]
  }

  /** The last two bytes, high byte last, are the checksum of the rest. */
  predicate Accepts(frame: seq<byte>) {
    && |frame| >= 2
    && Crc16(frame[..|frame| - 2]) == WordOf(frame[|frame| - 1], frame[|frame| - 2])
  }
}
