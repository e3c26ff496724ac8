/** Commands to the mobile platform (`mobplat.c`): each helper queues one
    command, a code byte and its arguments, on the robot channel's TX ring.
    The ring is the `UartBuffRobot` global, passed here as `robot`. */
module MobPlat {
  import opened Bytes
  import opened Uart

  const PLATFORM_CMD_SET_DEBUG: byte := 0x01
  const PLATFORM_CMD_SET_MODE: byte := 0x02
  const PLATFORM_CMD_SET_MOTOR_SPD: byte := 0x03
  const PLATFORM_CMD_SET_POS: byte := 0x04
  const PLATFORM_CMD_GET_POS: byte := 0x05
  const PLATFORM_CMD_BEEP: byte := 0x06

  datatype PlatformCommand =
    | SetDebug(state: byte)
    | SetMode(mode: byte)
    | SetMotorSpeed(dirMaxSpeed: byte, left: byte, right: byte)
    | SetPos(x: int16, y: int16, theta: int16)
    | GetPos
    | Beep

  /** A `short` stored as `unsigned short` (`unsigned short data[3] = {X, Y, Theta}`). */
  function ToU16(v: int16): (u: u16)
    ensures ToInt16(u) == v
  {
    v % 0x1_0000
  }

  /** The bytes of a command on the wire.  `mpSetPos` sends the three
      coordinates as 16-bit values in memory order, low byte first. */
  function Encode(c: PlatformCommand): (s: seq<byte>)
    ensures |s| >= 1 && Decode(s) == Some(c)
  {
    match c
    case SetDebug(state) => [PLATFORM_CMD_SET_DEBUG, state]
    case SetMode(mode) => [PLATFORM_CMD_SET_MODE, mode]
    case SetMotorSpeed(d, l, r) => [PLATFORM_CMD_SET_MOTOR_SPD, d, l, r]
    case SetPos(x, y, theta) =>
      [PLATFORM_CMD_SET_POS] + Le16Bytes(ToU16(x)) + Le16Bytes(ToU16(y)) + Le16Bytes(ToU16(theta))
    case GetPos => [PLATFORM_CMD_GET_POS]
    case Beep => [PLATFORM_CMD_BEEP]
  }

  /** How the platform reads one complete command message. */
  function Decode(s: seq<byte>): Option<PlatformCommand> {
    if s == [] then None
    else if s[0] == PLATFORM_CMD_SET_DEBUG && |s| == 2 then Some(SetDebug(s[1]))
    else if s[0] == PLATFORM_CMD_SET_MODE && |s| == 2 then Some(SetMode(s[1]))
    else if s[0] == PLATFORM_CMD_SET_MOTOR_SPD && |s| == 4 then Some(SetMotorSpeed(s[1], s[2], s[3]))
    else if s[0] == PLATFORM_CMD_SET_POS && |s| == 7 then
      Some(SetPos(ToInt16(Le16(s[1], s[2])), ToInt16(Le16(s[3], s[4])), ToInt16(Le16(s[5], s[6]))))
    else if s[0] == PLATFORM_CMD_GET_POS && |s| == 1 then Some(GetPos)
    else if s[0] == PLATFORM_CMD_BEEP && |s| == 1 then Some(Beep)
    else None
  }

  /** A message the platform accepts is the encoding of what it decodes to:
      no two commands share a byte sequence. */
  lemma DecodeEncode(s: seq<byte>, c: PlatformCommand)
    requires Decode(s) == Some(c)
    ensures Encode(c) == s
  {
    if s[0] == PLATFORM_CMD_SET_POS {
      CoordinateBytes(s[1], s[2]);
      CoordinateBytes(s[3], s[4]);
      CoordinateBytes(s[5], s[6]);
      assert s == [s[0]] + [s[1], s[2]] + [s[3], s[4]] + [s[5], s[6]];
    }
  }

  /** Two coordinate bytes read as a `short` and stored back give the same
      two bytes. */
  lemma CoordinateBytes(lo: byte, hi: byte)
    ensures Le16Bytes(ToU16(ToInt16(Le16(lo, hi)))) == [lo, hi]
  {
    var u := Le16(lo, hi);
    assert ToU16(ToInt16(u)) == u;
    Le16RoundTrip(lo, hi);
  }

  /** The robot ring after the blocking puts of `done`, starting from a
      stream `t0`, a queue `q0` of `count0` bytes and an overflow flag `o0`. */
  ghost predicate PutsDone(robot: UartBuff, t0: seq<byte>, q0: seq<byte>, count0: nat, o0: bool, done: seq<byte>)
    reads robot, robot.bufferTX
  {
    && robot.Valid()
    && robot.TxStream() == t0 + done
    && robot.countTX == QueuedAfter(count0, |done|)
    && robot.overflowTX == (o0 || BUFFER_SIZE_TX - count0 < |done|)
    && (count0 + |done| <= BUFFER_SIZE_TX ==> robot.TxContents() == q0 + done)
  }

  /** One more blocking put after those of `done`. */
  method PutNext(robot: UartBuff, c: byte, ghost t0: seq<byte>, ghost q0: seq<byte>, ghost count0: nat, ghost o0: bool, ghost done: seq<byte>)
    requires PutsDone(robot, t0, q0, count0, o0, done)
    modifies robot`indexTXRead, robot`indexTXWrite, robot`countTX, robot`overflowTX, robot`txSent, robot.bufferTX
    ensures PutsDone(robot, t0, q0, count0, o0, done + [c])
  {
    robot.PutCharBlocking(c);
    assert t0 + done + [c] == t0 + (done + [c]);
    assert q0 + done + [c] == q0 + (done + [c]);
  }

  /** The blocking puts of `bytes`, in order, after those of `done`. */
  method PutBytes(robot: UartBuff, bytes: seq<byte>, ghost t0: seq<byte>, ghost q0: seq<byte>, ghost count0: nat, ghost o0: bool, ghost done: seq<byte>)
    requires PutsDone(robot, t0, q0, count0, o0, done)
    modifies robot`indexTXRead, robot`indexTXWrite, robot`countTX, robot`overflowTX, robot`txSent, robot.bufferTX
    ensures PutsDone(robot, t0, q0, count0, o0, done + bytes)
  {
    for i := 0 to |bytes|
      invariant PutsDone(robot, t0, q0, count0, o0, done + bytes[..i])
    {
      PutNext(robot, bytes[i], t0, q0, count0, o0, done + bytes[..i]);
      assert done + bytes[..i] + [bytes[i]] == done + bytes[..i + 1];
    }
    assert bytes[..|bytes|] == bytes;
  }

  /** `mpSetDebug`.  Every byte goes out through the retrying put, so the
      command reaches the robot's stream whatever the ring holds; the
      overflow flag records a put that found the ring full. */
  method MpSetDebug(robot: UartBuff, state: byte)
    requires robot.Valid()
    modifies robot`indexTXRead, robot`indexTXWrite, robot`countTX, robot`overflowTX, robot`txSent, robot.bufferTX
    ensures robot.Valid()
    ensures robot.TxStream() == old(robot.TxStream()) + Encode(SetDebug(state))
    ensures Encode(SetDebug(state)) == [PLATFORM_CMD_SET_DEBUG, state]
    ensures robot.countTX == QueuedAfter(old(robot.countTX), 2)
    ensures robot.overflowTX == (old(robot.overflowTX) || old(robot.TxRoom()) < 2)
    ensures old(robot.TxRoom()) >= 2 ==> robot.TxContents() == old(robot.TxContents()) + Encode(SetDebug(state))
  {
    ghost var t0, q0, count0, o0 := robot.TxStream(), robot.TxContents(), robot.countTX, robot.overflowTX;
    PutBytes(robot, [PLATFORM_CMD_SET_DEBUG, state], t0, q0, count0, o0, []);
  }

  /** `mpSetMode`. */
  method MpSetMode(robot: UartBuff, mode: byte)
    requires robot.Valid()
    modifies robot`indexTXRead, robot`indexTXWrite, robot`countTX, robot`overflowTX, robot`txSent, robot.bufferTX
    ensures robot.Valid()
    ensures robot.TxStream() == old(robot.TxStream()) + Encode(SetMode(mode))
    ensures Encode(SetMode(mode)) == [PLATFORM_CMD_SET_MODE, mode]
    ensures robot.countTX == QueuedAfter(old(robot.countTX), 2)
    ensures robot.overflowTX == (old(robot.overflowTX) || old(robot.TxRoom()) < 2)
    ensures old(robot.TxRoom()) >= 2 ==> robot.TxContents() == old(robot.TxContents()) + Encode(SetMode(mode))
  {
    ghost var t0, q0, count0, o0 := robot.TxStream(), robot.TxContents(), robot.countTX, robot.overflowTX;
    PutBytes(robot, [PLATFORM_CMD_SET_MODE, mode], t0, q0, count0, o0, []);
  }

  /** `mpSetMotorSpeed`. */
  method MpSetMotorSpeed(robot: UartBuff, dirMaxSpeed: byte, left: byte, right: byte)
    requires robot.Valid()
    modifies robot`indexTXRead, robot`indexTXWrite, robot`countTX, robot`overflowTX, robot`txSent, robot.bufferTX
    ensures robot.Valid()
    ensures robot.TxStream() == old(robot.TxStream()) + Encode(SetMotorSpeed(dirMaxSpeed, left, right))
    ensures Encode(SetMotorSpeed(dirMaxSpeed, left, right)) == [PLATFORM_CMD_SET_MOTOR_SPD, dirMaxSpeed, left, right]
    ensures robot.countTX == QueuedAfter(old(robot.countTX), 4)
    ensures robot.overflowTX == (old(robot.overflowTX) || old(robot.TxRoom()) < 4)
    ensures old(robot.TxRoom()) >= 4 ==> robot.TxContents() == old(robot.TxContents()) + Encode(SetMotorSpeed(dirMaxSpeed, left, right))
  {
    ghost var t0, q0, count0, o0 := robot.TxStream(), robot.TxContents(), robot.countTX, robot.overflowTX;
    PutBytes(robot, [PLATFORM_CMD_SET_MOTOR_SPD, dirMaxSpeed, left, right], t0, q0, count0, o0, []);
  }

  /** `mpSetPos`: the code byte, then the six bytes of the three
      coordinates as they lie in memory. */
  method MpSetPos(robot: UartBuff, x: int16, y: int16, theta: int16)
    requires robot.Valid()
    modifies robot`indexTXRead, robot`indexTXWrite, robot`countTX, robot`overflowTX, robot`txSent, robot.bufferTX
    ensures robot.Valid()
    ensures robot.TxStream() == old(robot.TxStream()) + Encode(SetPos(x, y, theta))
    ensures robot.countTX == QueuedAfter(old(robot.countTX), 7)
    ensures robot.overflowTX == (old(robot.overflowTX) || old(robot.TxRoom()) < 7)
    ensures old(robot.TxRoom()) >= 7 ==> robot.TxContents() == old(robot.TxContents()) + Encode(SetPos(x, y, theta))
  {
    ghost var t0, q0, count0, o0 := robot.TxStream(), robot.TxContents(), robot.countTX, robot.overflowTX;
    PutNext(robot, PLATFORM_CMD_SET_POS, t0, q0, count0, o0, []);
    var data := Le16Bytes(ToU16(x)) + Le16Bytes(ToU16(y)) + Le16Bytes(ToU16(theta));
    PutBytes(robot, data, t0, q0, count0, o0, [PLATFORM_CMD_SET_POS]);
    assert [PLATFORM_CMD_SET_POS] + data == Encode(SetPos(x, y, theta));
  }

  /** `mpGetPos`. */
  method MpGetPos(robot: UartBuff)
    requires robot.Valid()
    modifies robot`indexTXRead, robot`indexTXWrite, robot`countTX, robot`overflowTX, robot`txSent, robot.bufferTX
    ensures robot.Valid()
    ensures robot.TxStream() == old(robot.TxStream()) + Encode(GetPos)
    ensures Encode(GetPos) == [PLATFORM_CMD_GET_POS]
    ensures robot.countTX == QueuedAfter(old(robot.countTX), 1)
    ensures robot.overflowTX == (old(robot.overflowTX) || old(robot.TxRoom()) < 1)
    ensures old(robot.TxRoom()) >= 1 ==> robot.TxContents() == old(robot.TxContents()) + Encode(GetPos)
  {
    ghost var t0, q0, count0, o0 := robot.TxStream(), robot.TxContents(), robot.countTX, robot.overflowTX;
    PutNext(robot, PLATFORM_CMD_GET_POS, t0, q0, count0, o0, []);
  }

  /** `mpBeep`. */
  method MpBeep(robot: UartBuff)
    requires robot.Valid()
    modifies robot`indexTXRead, robot`indexTXWrite, robot`countTX, robot`overflowTX, robot`txSent, robot.bufferTX
    ensures robot.Valid()
    ensures robot.TxStream() == old(robot.TxStream()) + Encode(Beep)
    ensures Encode(Beep) == [PLATFORM_CMD_BEEP]
    ensures robot.countTX == QueuedAfter(old(robot.countTX), 1)
    ensures robot.overflowTX == (old(robot.overflowTX) || old(robot.TxRoom()) < 1)
    ensures old(robot.TxRoom()) >= 1 ==> robot.TxContents() == old(robot.TxContents()) + Encode(Beep)
  {
    ghost var t0, q0, count0, o0 := robot.TxStream(), robot.TxContents(), robot.countTX, robot.overflowTX;
    PutNext(robot, PLATFORM_CMD_BEEP, t0, q0, count0, o0, []);
  }
}
