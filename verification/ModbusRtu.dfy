/**
 * The Modbus RTU request builders of the two serial drivers.
 *
 * The two-finger gripper driver pushes bytes onto a vector and closes it with the table-driven
 * checksum; the force-torque driver fills a fixed buffer and closes it with the bit-by-bit one.
 */
module ModbusRtu {
  import opened Crc
  import opened CrcRegister
  import opened CrcTables
  import opened Folds
  import opened ModbusFrames

  // ---------------------------------------------------------------- the two-finger gripper driver

  class DefaultDriver {
    var slaveAddress: byte

    constructor (slave: byte)
      ensures slaveAddress == slave
    {
      slaveAddress := slave;
    }

    method CreateReadCommand(first: word, registers: byte) returns (request: seq<byte>)
      ensures request == Sealed(ReadBody(slaveAddress, first, registers as nat))
    {
      request := [slaveAddress, READ_REGISTERS, HighByte(first), LowByte(first),
                  HighByte(registers as word), LowByte(registers as word)];
      SmallRegister(registers);
      var crc := ComputeByTable(request);
      SwappedBytes(Crc16(request));
      request := request + [HighByte(crc)];
      request := request + [LowByte(crc)];
    }

    method CreateWriteCommand(first: word, data: seq<word>) returns (request: seq<byte>)
      ensures request == Sealed(WriteBody(slaveAddress, first, |data| % 0x10000, RegisterBytes(data)))
    {
      var registers := |data| % 0x10000;
      request := Head(slaveAddress, WRITE_REGISTERS, first, registers) + [ByteOf(2 * registers)];
      ghost var head := request;
      var i := 0;
      while i < |data|
        invariant 0 <= i <= |data|
        invariant request == head + RegisterBytes(data[..i])
      {
        request := request + [HighByte(data[i])];
        request := request + [LowByte(data[i])];
        assert data[..i + 1][..i] == data[..i];
        i := i + 1;
      }
      assert data[..i] == data;
      var crc := ComputeByTable(request);
      SwappedBytes(Crc16(request));
      request := request + [HighByte(crc)];
      request := request + [LowByte(crc)];
    }
  }

  lemma SmallRegister(b: byte)
    ensures HighByte(b as word) == ByteOf(b as nat / 256) && LowByte(b as word) == ByteOf(b as nat)
  {
    SmallWord(b);
    ByteOfSmall(b);
  }

  lemma SmallWord(b: byte)
    ensures (b as word) >> 8 == 0 && (b as word) & 0xFF == b as word
  {
  }

  lemma ByteOfSmall(b: byte)
    ensures ByteOf(b as nat) == b && ByteOf(b as nat / 256) == 0
  {
    var n := b as nat;
    assert n < 256 && n % 256 == n && n / 256 == 0;
  }

  lemma SwappedBytes(c: word)
    ensures HighByte(SwapBytes(c)) == LowByte(c) && LowByte(SwapBytes(c)) == HighByte(c)
  {
  }

  // ---------------------------------------------------------------- the force-torque sensor driver

  /** The request buffer of the sensor driver: a fixed array filled from the front. */
  class RequestBuffer {
    const buf: array<byte>
    var length: nat

    ghost predicate Valid()
      reads this
    {
      buf.Length == BUFFER_SIZE && length <= BUFFER_SIZE
    }

    function Contents(): seq<byte>
      requires Valid()
      reads this, buf
    {
      buf[..length]
    }

    constructor ()
      ensures Valid() && fresh(buf) && length == 0
    {
      buf := new byte[BUFFER_SIZE];
      length := 0;
    }

    method Push(b: byte)
      requires Valid() && length < BUFFER_SIZE
      modifies this`length, buf
      ensures Valid() && length == old(length) + 1
      ensures Contents() == old(Contents()) + [b]
    {
      buf[length] := b;
      length := length + 1;
    }

    /** Appends the checksum of what the buffer holds. */
    method Seal()
      requires Valid() && length + 2 <= BUFFER_SIZE
      modifies this`length, buf
      ensures Valid() && Contents() == Sealed(old(Contents()))
    {
      ghost var body := Contents();
      var crc := ComputeBitwise(buf[..length]);
      Push(LowByte(crc));
      Push(HighByte(crc));
    }

    /** The first six bytes, which both requests share. */
    method Start(functionCode: byte, base: word, words: nat)
      requires Valid()
      modifies this`length, buf
      ensures Valid() && length == 6
      ensures Contents() == Head(SENSOR_SLAVE, functionCode, base, words)
    {
      length := 0;
      Push(SENSOR_SLAVE);
      Push(functionCode);
      Push(HighByte(base));
      Push(LowByte(base));
      Push(ByteOf(words / 256));
      Push(ByteOf(words));
    }

    /** `rq_com_send_fc_03_request`: `n` counts bytes and is rounded up to whole registers in 16 bits. */
    method SendReadRequest(base: word, n: nat) returns (sent: seq<byte>)
      requires Valid() && n < 0x10000
      modifies this`length, buf
      ensures Valid()
      ensures sent == Sealed(ReadBody(SENSOR_SLAVE, base, ((n + 1) % 0x10000) / 2))
    {
      var even := if n % 2 != 0 then (n + 1) % 0x10000 else n;
      RoundedUp(n, even);
      Start(READ_REGISTERS, base, even / 2);
      Seal();
      sent := Contents();
    }

    /** The loop that copies the payload into the buffer. */
    method PushAll(data: seq<byte>)
      requires Valid() && length + |data| <= BUFFER_SIZE
      modifies this`length, buf
      ensures Valid() && length == old(length) + |data|
      ensures Contents() == old(Contents()) + data
    {
      var i := 0;
      while i < |data|
        invariant Valid() && 0 <= i <= |data| && length == old(length) + i
        invariant Contents() == old(Contents()) + data[..i]
      {
        Push(data[i]);
        i := i + 1;
      }
      assert data[..i] == data;
    }

    /** All of the write request but its checksum. */
    method FillWriteRequest(base: word, data: seq<byte>)
      requires Valid() && |data| <= BUFFER_SIZE - 10
      modifies this`length, buf
      ensures Valid() && length + 2 <= BUFFER_SIZE
      ensures Contents() == WriteBody(SENSOR_SLAVE, base, (|data| + 1) / 2, Padded(data))
    {
      var n := |data|;
      var n2 := if n % 2 != 0 then n + 1 else n;
      EvenUp(n, n2);
      Start(WRITE_REGISTERS, base, n2 / 2);
      Push(ByteOf(n2));
      PushAll(data);
      if n != n2 {
        Push(0);
      }
    }

    /** `rq_com_send_fc_16_request`: the payload is padded with one zero byte to whole registers. */
    method SendWriteRequest(base: word, data: seq<byte>) returns (sent: seq<byte>)
      requires Valid() && |data| <= BUFFER_SIZE - 10
      modifies this`length, buf
      ensures Valid()
      ensures sent == Sealed(WriteBody(SENSOR_SLAVE, base, (|data| + 1) / 2, Padded(data)))
    {
      FillWriteRequest(base, data);
      Seal();
      sent := Contents();
    }
  }

  lemma RoundedUp(n: nat, even: nat)
    requires n < 0x10000 && even == if n % 2 != 0 then (n + 1) % 0x10000 else n
    ensures even / 2 == ((n + 1) % 0x10000) / 2
  {
  }

  lemma EvenUp(n: nat, n2: nat)
    requires n2 == if n % 2 != 0 then n + 1 else n
    ensures n2 / 2 == (n + 1) / 2 && n2 == 2 * (n2 / 2)
  {
  }

  // ---------------------------------------------------------------- both drivers speak the same frames

  /** A write of whole registers is the same frame whichever driver builds it for the sensor's address. */
  lemma {:induction false} WriteFramesAgree(first: word, data: seq<word>)
    requires 2 * |data| <= BUFFER_SIZE - 10
    ensures Sealed(WriteBody(SENSOR_SLAVE, first, |data| % 0x10000, RegisterBytes(data))) ==
            Sealed(WriteBody(SENSOR_SLAVE, first, (|RegisterBytes(data)| + 1) / 2, Padded(RegisterBytes(data))))
  {
    var bytes := RegisterBytes(data);
    CountsAgree(|data|, |bytes|);
    PaddedEven(bytes);
    SameWriteFrame(first, |data| % 0x10000, (|bytes| + 1) / 2, bytes, Padded(bytes));
  }

  lemma PaddedEven(data: seq<byte>)
    requires |data| % 2 == 0
    ensures Padded(data) == data
  {
  }

  lemma SameWriteFrame(first: word, m: nat, n: nat, p: seq<byte>, q: seq<byte>)
    requires m == n && p == q
    ensures Sealed(WriteBody(SENSOR_SLAVE, first, m, p)) == Sealed(WriteBody(SENSOR_SLAVE, first, n, q))
  {
  }

  lemma CountsAgree(m: nat, n: nat)
    requires 2 * m <= BUFFER_SIZE - 10 && n == 2 * m
    ensures m % 0x10000 == (n + 1) / 2 && n % 2 == 0
  {
  }

  /** A read of `registers` registers is the same frame as a read of twice as many bytes, or of one byte less. */
  lemma ReadFramesAgree(first: word, registers: byte, n: nat)
    requires n == 2 * registers as nat || n + 1 == 2 * registers as nat
    ensures Sealed(ReadBody(SENSOR_SLAVE, first, registers as nat)) ==
            Sealed(ReadBody(SENSOR_SLAVE, first, ((n + 1) % 0x10000) / 2))
  {
    ReadCountsAgree(registers as nat, n);
  }

  lemma ReadCountsAgree(m: nat, n: nat)
    requires n == 2 * m || n + 1 == 2 * m
    requires m < 256
    ensures ((n + 1) % 0x10000) / 2 == m
  {
  }

  /** The two builders side by side: what they return for the same read at the sensor's address is the same. */
  method ReadRequestsOfBoth(driver: DefaultDriver, sensor: RequestBuffer, first: word, registers: byte, n: nat)
    returns (ours: seq<byte>, theirs: seq<byte>)
    requires driver.slaveAddress == SENSOR_SLAVE && sensor.Valid()
    requires n == 2 * registers as nat || n + 1 == 2 * registers as nat
    modifies sensor`length, sensor.buf
    ensures sensor.Valid() && ours == theirs
  {
    ours := driver.CreateReadCommand(first, registers);
    theirs := sensor.SendReadRequest(first, n);
    ReadFramesAgree(first, registers, n);
  }

  /** And so it is for a write of the same registers. */
  method WriteRequestsOfBoth(driver: DefaultDriver, sensor: RequestBuffer, first: word, data: seq<word>)
    returns (ours: seq<byte>, theirs: seq<byte>)
    requires driver.slaveAddress == SENSOR_SLAVE && sensor.Valid() && |RegisterBytes(data)| <= BUFFER_SIZE - 10
    modifies sensor`length, sensor.buf
    ensures sensor.Valid() && ours == theirs
  {
    ours := driver.CreateWriteCommand(first, data);
    theirs := sensor.SendWriteRequest(first, RegisterBytes(data));
    WriteFramesAgree(first, data);
  }

  /** The request that reads the gripper's three status registers, byte for byte. */
  lemma {:induction false} KnownReadRequest()
    ensures Sealed(ReadBody(0x09, 0x07D0, 3)) == [0x09, 0x03, 0x07, 0xD0, 0x00, 0x03, 0x04, 0x0E]
  {
    assert HighByte(0x07D0) == 0x07 && LowByte(0x07D0) == 0xD0;
    KnownChecksum(ReadBody(0x09, 0x07D0, 3));
    assert LowByte(0x0E04) == 0x04 && HighByte(0x0E04) == 0x0E;
  }

  /** The request that writes the gripper's three action registers, the first one 0x0900, byte for byte. */
  lemma {:induction false} KnownWriteRequest()
    ensures Sealed(WriteBody(0x09, 0x03E8, 3, RegisterBytes([0x0900, 0, 0]))) ==
            [0x09, 0x10, 0x03, 0xE8, 0x00, 0x03, 0x06, 0x09, 0x00, 0x00, 0x00, 0x00, 0x00, 0x73, 0xA9]
  {
    KnownRegisters();
    KnownWriteHead();
    KnownWriteChecksum(WriteBody(0x09, 0x03E8, 3, RegisterBytes([0x0900, 0, 0])));
    assert LowByte(0xA973) == 0x73 && HighByte(0xA973) == 0xA9;
  }

  lemma {:induction false} KnownRegisters()
    ensures RegisterBytes([0x0900, 0, 0]) == [0x09, 0x00, 0x00, 0x00, 0x00, 0x00]
  {
    var data: seq<word> := [0x0900, 0, 0];
    assert data[..2] == [0x0900, 0] && data[..2][..1] == [0x0900] && data[..2][..1][..0] == [];
    assert HighByte(0x0900) == 0x09 && LowByte(0x0900) == 0x00 && HighByte(0) == 0x00 && LowByte(0) == 0x00;
    assert RegisterBytes(data[..2][..1]) == [0x09, 0x00];
    assert RegisterBytes(data[..2]) == [0x09, 0x00, 0x00, 0x00];
  }

  lemma {:induction false} KnownWriteHead()
    ensures Head(0x09, WRITE_REGISTERS, 0x03E8, 3) + [ByteOf(6)] == [0x09, 0x10, 0x03, 0xE8, 0x00, 0x03, 0x06]
  {
    assert HighByte(0x03E8) == 0x03 && LowByte(0x03E8) == 0xE8;
  }

  // ---------------------------------------------------------------- the receivers' check

  lemma WordOfBytes(c: word, hi: byte, lo: byte)
    ensures c == WordOf(hi, lo) <==> hi == HighByte(c) && lo == LowByte(c)
  {
    BytesOfWord(hi, lo);
    WordOfItsBytes(c);
  }

  lemma BytesOfWord(hi: byte, lo: byte)
    ensures HighByte(WordOf(hi, lo)) == hi && LowByte(WordOf(hi, lo)) == lo
  {
  }

  lemma WordOfItsBytes(c: word)
    ensures WordOf(HighByte(c), LowByte(c)) == c
  {
  }

  /** The check holds exactly when running the register over the whole frame clears it. */
  lemma AcceptsIsResidueZero(frame: seq<byte>)
    requires |frame| >= 2
    ensures Accepts(frame) <==> Crc16(frame) == 0
  {
    var n := |frame| - 2;
    assert frame == frame[..n] + [frame[n], frame[n + 1]];
    ResidueZero(frame[..n], frame[n], frame[n + 1]);
    WordOfBytes(Crc16(frame[..n]), frame[n + 1], frame[n]);
  }

  /** Every frame a builder closes passes the check. */
  lemma SealedIsAccepted(body: seq<byte>)
    ensures Accepts(Sealed(body))
  {
    assert Sealed(body)[..|body|] == body;
    WordOfBytes(Crc16(body), HighByte(Crc16(body)), LowByte(Crc16(body)));
  }

  /** No burst of at most 16 bits, anywhere in a sealed frame, checksum included, passes the check. */
  lemma CorruptedFrameRejected(body: seq<byte>, received: seq<byte>, i: nat, s: nat, pattern: word)
    requires s < 8 && pattern != 0
    requires DiffersBy(XorBytes, 0, Sealed(body), received, i, BurstBytes(pattern, s))
    ensures !Accepts(received)
  {
    SealedIsAccepted(body);
    AcceptsIsResidueZero(Sealed(body));
    AcceptsIsResidueZero(received);
    BurstDetected(Sealed(body), received, i, s, pattern);
  }
}
