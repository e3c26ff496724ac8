/** The controller's main tasks (`ultrasound.c`): the PC command channel,
    the robot response channel and the ultrasound output.  Each task is a
    method on the controller's globals, proved against the reference
    functions of `HostProtocol`, `RobotLink` and `Telemetry`. */
module Ultrasound {
  import opened Bytes
  import opened Uart
  import opened UsArray
  import opened HostProtocol
  import opened RobotLink
  import opened Telemetry

  /** One print call on `u`. */
  method PrintCall(u: UartBuff, p: Piece)
    requires u.Valid()
    modifies u`indexTXRead, u`indexTXWrite, u`countTX, u`overflowTX, u`txSent, u.bufferTX
    ensures u.Valid()
    ensures u.TxStream() == old(u.TxStream()) + Render([p])
  {
    match p {
      case Text(msg) =>
        u.Print(Ascii(msg) + [NUL]);
        LiteralIsCString(msg);
      case Buffer(buf) => u.Print(buf);
      case Int(val, isSigned) => u.PrintInt(val, isSigned);
      case Char(c) => u.PutCharBlocking(c);
    }
    assert [p][1..] == [];
  }

  /** Two print calls on `u`, one after the other. */
  method PrintCalls(u: UartBuff, a: Piece, b: Piece)
    requires u.Valid()
    modifies u`indexTXRead, u`indexTXWrite, u`countTX, u`overflowTX, u`txSent, u.bufferTX
    ensures u.Valid()
    ensures u.TxStream() == old(u.TxStream()) + Render([a, b])
  {
    PrintCall(u, a);
    PrintCall(u, b);
    RenderExtend(old(u.TxStream()), [a], [b]);
    assert [a] + [b] == [a, b];
  }

  /** The body of `debugPrint` on `u` with the debug flag `enabled`. */
  method DebugLine(u: UartBuff, enabled: bool, msg: string, newLine: bool)
    requires u.Valid()
    modifies u`indexTXRead, u`indexTXWrite, u`countTX, u`overflowTX, u`txSent, u.bufferTX
    ensures u.Valid()
    ensures u.TxStream() == old(u.TxStream()) + Render(DebugText(enabled, msg, newLine))
  {
    if enabled {
      PrintCalls(u, Text("#DBG: "), Text(msg));
      if newLine {
        PrintCall(u, Char(NEWLINE));
        RenderExtend(old(u.TxStream()), [Text("#DBG: "), Text(msg)], [Char(NEWLINE)]);
      } else {
        assert [Text("#DBG: "), Text(msg)] + [] == [Text("#DBG: "), Text(msg)];
      }
    } else {
      assert Render([]) == [];
    }
  }

  /** A debug line ending in one character: the sensor-select and
      button-press reports. */
  method DebugChar(u: UartBuff, msg: string, c: byte)
    requires u.Valid()
    modifies u`indexTXRead, u`indexTXWrite, u`countTX, u`overflowTX, u`txSent, u.bufferTX
    ensures u.Valid()
    ensures u.TxStream() == old(u.TxStream()) + Render(DebugText(true, msg, false) + [Char(c), Char(NEWLINE)])
  {
    DebugLine(u, true, msg, false);
    PrintCalls(u, Char(c), Char(NEWLINE));
    RenderExtend(old(u.TxStream()), DebugText(true, msg, false), [Char(c), Char(NEWLINE)]);
  }

  /** The debug report of a trigger change, printed on `u`. */
  method PrintTriggers(u: UartBuff, c: u16, nl: u16, nu: u16, fl: u16, fu: u16)
    requires u.Valid()
    modifies u`indexTXRead, u`indexTXWrite, u`countTX, u`overflowTX, u`txSent, u.bufferTX
    ensures u.Valid()
    ensures u.TxStream() == old(u.TxStream()) + Render(TriggerText(c, nl, nu, fl, fu))
  {
    ghost var t0 := u.TxStream();
    ghost var done := DebugText(true, "US TRIGGER SET - CHANGEOVER: ", false);
    DebugLine(u, true, "US TRIGGER SET - CHANGEOVER: ", false);
    PrintCall(u, Int(c, false));
    RenderExtend(t0, done, [Int(c, false)]);
    done := done + [Int(c, false)];
    PrintCalls(u, Text(", NL: "), Int(nl, false));
    RenderExtend(t0, done, Field(", NL: ", nl));
    done := done + Field(", NL: ", nl);
    PrintCalls(u, Text(", NU: "), Int(nu, false));
    RenderExtend(t0, done, Field(", NU: ", nu));
    done := done + Field(", NU: ", nu);
    PrintCalls(u, Text(", FL: "), Int(fl, false));
    RenderExtend(t0, done, Field(", FL: ", fl));
    done := done + Field(", FL: ", fl);
    PrintCalls(u, Text(", FU: "), Int(fu, false));
    RenderExtend(t0, done, Field(", FU: ", fu));
    done := done + Field(", FU: ", fu);
    PrintCall(u, Char(NEWLINE));
    RenderExtend(t0, done, [Char(NEWLINE)]);
  }

  /** The debug report of a position update. */
  method PrintPosition(u: UartBuff, p: Position)
    requires u.Valid()
    modifies u`indexTXRead, u`indexTXWrite, u`countTX, u`overflowTX, u`txSent, u.bufferTX
    ensures u.Valid()
    ensures u.TxStream() == old(u.TxStream()) + Render(PositionText(p))
  {
    ghost var t0 := u.TxStream();
    ghost var done := DebugText(true, "3PI POS UPDATE: ", false);
    DebugLine(u, true, "3PI POS UPDATE: ", false);
    PrintCalls(u, Int(p.x, true), Char(COMMA));
    RenderExtend(t0, done, [Int(p.x, true), Char(COMMA)]);
    done := done + [Int(p.x, true), Char(COMMA)];
    PrintCalls(u, Int(p.y, true), Char(COMMA));
    RenderExtend(t0, done, [Int(p.y, true), Char(COMMA)]);
    done := done + [Int(p.y, true), Char(COMMA)];
    PrintCalls(u, Int(p.theta, false), Char(NEWLINE));
    RenderExtend(t0, done, [Int(p.theta, false), Char(NEWLINE)]);
  }

  /** A stored debug line forwarded from the robot: "3PI: " behind the
      debug prefix, the buffer as a C string, and a '\n'. */
  method PrintLine(u: UartBuff, buf: seq<byte>)
    requires u.Valid()
    modifies u`indexTXRead, u`indexTXWrite, u`countTX, u`overflowTX, u`txSent, u.bufferTX
    ensures u.Valid()
    ensures u.TxStream() == old(u.TxStream()) + Render(LineText(true, buf))
  {
    DebugLine(u, true, "3PI: ", false);
    PrintCalls(u, Buffer(buf), Char(NEWLINE));
    RenderExtend(old(u.TxStream()), DebugText(true, "3PI: ", false), [Buffer(buf), Char(NEWLINE)]);
  }

  /** Two bytes queued one after the other. */
  method PutPair(u: UartBuff, a: byte, b: byte)
    requires u.Valid()
    modifies u`indexTXRead, u`indexTXWrite, u`countTX, u`overflowTX, u`txSent, u.bufferTX
    ensures u.Valid()
    ensures u.TxStream() == old(u.TxStream()) + [a, b]
  {
    u.PutCharBlocking(a);
    u.PutCharBlocking(b);
  }

  /** `n` successive `uart_getchar` calls on a ring holding at least `n`
      bytes: they return its first `n` bytes in order. */
  method ReadBytes(u: UartBuff, n: nat) returns (data: seq<byte>)
    requires u.Valid() && n <= |u.RxContents()|
    modifies u`indexRXRead, u`countRX
    ensures u.Valid()
    ensures data == old(u.RxContents())[..n]
    ensures u.RxContents() == old(u.RxContents())[n..]
  {
    data := [];
    for i := 0 to n
      invariant u.Valid()
      invariant data == old(u.RxContents())[..i]
      invariant u.RxContents() == old(u.RxContents())[i..]
    {
      var c := u.GetChar();
      data := data + [c];
    }
  }

  /** What `uart_getchar` returns into an `int`: a byte, or -1 for none. */
  type Received = x: int | -1 <= x < 0x100

  /** `enum US_OUTPUT`: none, waveform or range. */
  type OutputMode = x: byte | x <= 2

  /** A sensor position of the array. */
  type SensorNum = x: byte | x < 10

  /** A count of listed sensors. */
  type SensorCount = x: byte | x <= 10

  /** An index of `mpDebugBuf` that still leaves room for the NUL. */
  type DebugIndex = x: nat | x <= 127

  /** The globals of `ultrasound.c`.  `passthrough` records that the
      firmware has entered `Passthrough3PI`, which never returns. */
  class Controller {
    const debug: UartBuff
    const robot: UartBuff
    const usArray: UsArray

    var debugCommand: Received
    var debugEnabled: bool
    var debugRobotCmdSizeReceived: int8

    var mpResponse: Received
    var mpDebugParse: bool
    const mpDebugBuf: array<byte>
    var mpDebugIndex: DebugIndex
    var mpCurrentPos: Position

    var usarrayEnabled: bool
    var usarrayOutputMode: OutputMode
    const sensors: array<SensorNum>
    var numSensors: SensorCount

    var passthrough: bool

    /** How the globals are laid out: distinct buffers of the sizes the
        firmware declares.  Only constant fields are involved, so no update
        can change it. */
    ghost predicate Wired() {
      && debug != robot
      && debug.bufferTX != robot.bufferTX && debug.bufferTX != robot.bufferRX
      && debug.bufferRX != robot.bufferTX && debug.bufferRX != robot.bufferRX
      && mpDebugBuf != debug.bufferTX && mpDebugBuf != debug.bufferRX
      && mpDebugBuf != robot.bufferTX && mpDebugBuf != robot.bufferRX
      && mpDebugBuf.Length == MP_DEBUG_BUF_SIZE
      && sensors.Length == US_SENSOR_COUNT
    }

    ghost predicate Valid()
      reads debug, robot, usArray
    {
      && Wired()
      && debug.Valid() && robot.Valid() && usArray.Valid()
      && usArray.usSensorIndex < US_SENSOR_COUNT
    }

    /** The settings the PC commands act on. */
    ghost function CurrentSettings(): Settings
      reads this`debugEnabled, this`usarrayEnabled, this`usarrayOutputMode, this`numSensors, sensors, usArray
    {
      Settings(debugEnabled, usarrayEnabled, usarrayOutputMode, numSensors, sensors[..],
               usArray.usSensorIndex, usArray.CurrentTriggers())
    }

    /** The robot link state. */
    ghost function CurrentLink(): Link
      reads this`mpResponse, this`mpDebugParse, this`mpDebugIndex, mpDebugBuf
    {
      Link(mpResponse, mpDebugParse, mpDebugIndex, mpDebugBuf[..])
    }

    /** The controller invariant is the reference model's invariants. */
    lemma ValidParts()
      requires Valid()
      ensures SettingsValid(CurrentSettings())
      ensures LinkValid(CurrentLink())
    {
    }

    /** The static initialisers and the sensor setup of `main`: six sensors
        (`mainSensors`, the `SENSOR_*` positions) active, array enabled,
        no output, debugging off, nothing pending on either channel. */
    constructor (debug: UartBuff, robot: UartBuff, usArray: UsArray, mainSensors: seq<SensorNum>)
      requires debug.Valid() && robot.Valid() && usArray.Valid() && debug != robot
      requires debug.bufferTX != robot.bufferTX && debug.bufferTX != robot.bufferRX
      requires debug.bufferRX != robot.bufferTX && debug.bufferRX != robot.bufferRX
      requires usArray.usSensorIndex < US_SENSOR_COUNT
      requires |mainSensors| == 6
      ensures Valid()
      ensures this.debug == debug && this.robot == robot && this.usArray == usArray
      ensures debugCommand == DEBUG_CMD_NONE && !debugEnabled && debugRobotCmdSizeReceived == 0
      ensures mpResponse == PLATFORM_RESP_NONE && !mpDebugParse && mpDebugIndex == 0
      ensures usarrayEnabled && usarrayOutputMode == US_OUTPUT_NONE
      ensures numSensors == 6 && sensors[..6] == mainSensors
      ensures !passthrough
    {
      this.debug, this.robot, this.usArray := debug, robot, usArray;
      debugCommand, debugEnabled, debugRobotCmdSizeReceived := DEBUG_CMD_NONE, false, 0;
      mpResponse, mpDebugParse, mpDebugIndex := PLATFORM_RESP_NONE, false, 0;
      mpDebugBuf := new byte[MP_DEBUG_BUF_SIZE](i => 0);
      mpCurrentPos := Position(0, 0, 0);
      usarrayEnabled, usarrayOutputMode := true, US_OUTPUT_NONE;
      sensors := new SensorNum[US_SENSOR_COUNT](i requires 0 <= i < US_SENSOR_COUNT => if i < 6 then mainSensors[i] else 0);
      numSensors := 6;
      passthrough := false;
    }

    /** `debugPrint`. */
    method DebugPrint(msg: string, newLine: bool)
      requires Valid()
      modifies debug`indexTXRead, debug`indexTXWrite, debug`countTX, debug`overflowTX, debug`txSent, debug.bufferTX
      ensures Valid()
      ensures debug.TxStream() == old(debug.TxStream()) + Render(DebugText(debugEnabled, msg, newLine))
    {
      DebugLine(debug, debugEnabled, msg, newLine);
    }

    // -------------------------------------------------------------------
    // The PC command channel

    /** The state after one poll `p` of the PC channel, against the state
        before it: the RX bytes the poll consumed are gone, the pending
        command and the robot-command length are those the poll leaves, a
        complete command has been applied to the settings, its reply has
        been printed, its payload forwarded to the robot, and passthrough
        entered if it asked for it. */
    ghost predicate DebugPollDone(p: Poll, s0: Settings, size0: int8, rx0: seq<byte>,
                                  dtx0: seq<byte>, rtx0: seq<byte>, pass0: bool)
      reads this, debug, debug.bufferRX, debug.bufferTX, robot, robot.bufferTX, sensors, usArray
      requires Valid() && Consumed(p) <= |rx0| && |s0.sensors| == US_SENSOR_COUNT
    {
      && debug.RxContents() == rx0[Consumed(p)..]
      && debugCommand == (if p.Wait? then p.command as int else DEBUG_CMD_NONE)
      && debugRobotCmdSizeReceived == (if p.Idle? then size0 else p.robotSize)
      && CurrentSettings() == (if p.Run? then Execute(s0, p.cmd).0 else s0)
      && debug.TxStream() == dtx0 + (if p.Run? then Render(Execute(s0, p.cmd).1) else [])
      && robot.TxStream() == rtx0 + (if p.Run? then RobotBytes(p.cmd) else [])
      && passthrough == (pass0 || (p.Run? && p.cmd.Passthrough?))
    }

    /** `ProcessSerialDebug`: one poll of the PC channel, as `ParseDebug`
        describes it. */
    method ProcessSerialDebug()
      requires Valid()
      modifies this`debugCommand, this`debugEnabled, this`debugRobotCmdSizeReceived,
               this`usarrayEnabled, this`usarrayOutputMode, this`numSensors, this`passthrough, sensors,
               usArray`usSensorIndex, usArray`usTriggerChangeIndex, usArray`usTriggerNearLower,
               usArray`usTriggerNearUpper, usArray`usTriggerFarUpper, usArray`usTriggerFarLower,
               debug`indexRXRead, debug`countRX,
               debug`indexTXRead, debug`indexTXWrite, debug`countTX, debug`overflowTX, debug`txSent, debug.bufferTX,
               robot`indexTXRead, robot`indexTXWrite, robot`countTX, robot`overflowTX, robot`txSent, robot.bufferTX
      ensures Valid()
      ensures DebugPollDone(ParseDebug(old(debugCommand), old(debugRobotCmdSizeReceived), old(debug.RxContents())),
                            old(CurrentSettings()), old(debugRobotCmdSizeReceived), old(debug.RxContents()),
                            old(debug.TxStream()), old(robot.TxStream()), old(passthrough))
    {
      ghost var rx0 := debug.RxContents();
      if debugCommand == DEBUG_CMD_NONE {
        debugCommand := debug.GetChar();
      }
      if debugCommand == DEBUG_CMD_NONE {
        return;
      }
      ghost var code: byte := debugCommand;
      ghost var rx1 := debug.RxContents();
      RunCommand(debugCommand);
      ghost var q := ParsePending(code, old(debugRobotCmdSizeReceived), rx1);
      if old(debugCommand) == DEBUG_CMD_NONE {
        assert rx1 == rx0[1..];
        assert rx1[Consumed(q)..] == rx0[Consumed(q) + 1..];
      }
    }

    /** The `switch` on a pending command `code`. */
    method RunCommand(code: byte)
      requires Valid() && debugCommand == code
      modifies this`debugCommand, this`debugEnabled, this`debugRobotCmdSizeReceived,
               this`usarrayEnabled, this`usarrayOutputMode, this`numSensors, this`passthrough, sensors,
               usArray`usSensorIndex, usArray`usTriggerChangeIndex, usArray`usTriggerNearLower,
               usArray`usTriggerNearUpper, usArray`usTriggerFarUpper, usArray`usTriggerFarLower,
               debug`indexRXRead, debug`countRX,
               debug`indexTXRead, debug`indexTXWrite, debug`countTX, debug`overflowTX, debug`txSent, debug.bufferTX,
               robot`indexTXRead, robot`indexTXWrite, robot`countTX, robot`overflowTX, robot`txSent, robot.bufferTX
      ensures Valid()
      ensures DebugPollDone(ParsePending(code, old(debugRobotCmdSizeReceived), old(debug.RxContents())),
                            old(CurrentSettings()), old(debugRobotCmdSizeReceived), old(debug.RxContents()),
                            old(debug.TxStream()), old(robot.TxStream()), old(passthrough))
    {
      if OneByteCode(code) {
        OneByteStep(code);
      } else if code == DEBUG_CMD_SET_US_TRIGGERS {
        TriggersStep();
      } else if code == DEBUG_CMD_ROBOT_COMMAND {
        RobotCommandStep();
      } else {
        NoDataStep(code);
      }
    }

    /** The commands with one data byte, as a poll: wait for the byte, then
        act on it. */
    method OneByteStep(code: byte)
      requires Valid() && debugCommand == code && OneByteCode(code)
      modifies this`debugCommand, this`debugEnabled, this`usarrayEnabled, this`usarrayOutputMode,
               this`numSensors, sensors, usArray`usSensorIndex,
               debug`indexRXRead, debug`countRX,
               debug`indexTXRead, debug`indexTXWrite, debug`countTX, debug`overflowTX, debug`txSent, debug.bufferTX
      ensures Valid()
      ensures DebugPollDone(ParsePending(code, old(debugRobotCmdSizeReceived), old(debug.RxContents())),
                            old(CurrentSettings()), old(debugRobotCmdSizeReceived), old(debug.RxContents()),
                            old(debug.TxStream()), old(robot.TxStream()), old(passthrough))
    {
      var n := debug.GetRxCount();
      if n < 1 {
        return;
      }
      OneByteRun(code);
    }

    /** A command with one data byte once the byte is buffered, as a poll. */
    method OneByteRun(code: byte)
      requires Valid() && debugCommand == code && OneByteCode(code) && |debug.RxContents()| >= 1
      modifies this`debugCommand, this`debugEnabled, this`usarrayEnabled, this`usarrayOutputMode,
               this`numSensors, sensors, usArray`usSensorIndex,
               debug`indexRXRead, debug`countRX,
               debug`indexTXRead, debug`indexTXWrite, debug`countTX, debug`overflowTX, debug`txSent, debug.bufferTX
      ensures Valid()
      ensures DebugPollDone(ParsePending(code, old(debugRobotCmdSizeReceived), old(debug.RxContents())),
                            old(CurrentSettings()), old(debugRobotCmdSizeReceived), old(debug.RxContents()),
                            old(debug.TxStream()), old(robot.TxStream()), old(passthrough))
    {
      DataByteCommand(code);
    }

    /** The cases of the switch that take one data byte, once it is there:
        read it, act on it, and the command is done. */
    method DataByteCommand(code: byte)
      requires Valid() && OneByteCode(code) && |debug.RxContents()| >= 1
      modifies this`debugCommand, this`debugEnabled, this`usarrayEnabled, this`usarrayOutputMode,
               this`numSensors, sensors, usArray`usSensorIndex,
               debug`indexRXRead, debug`countRX,
               debug`indexTXRead, debug`indexTXWrite, debug`countTX, debug`overflowTX, debug`txSent, debug.bufferTX
      ensures Valid()
      ensures debugCommand == DEBUG_CMD_NONE
      ensures debug.RxContents() == old(debug.RxContents())[1..]
      ensures var r := Execute(old(CurrentSettings()), OneByteCommand(code, old(debug.RxContents())[0]));
              CurrentSettings() == r.0 && debug.TxStream() == old(debug.TxStream()) + Render(r.1)
    {
      var data := debug.GetChar();
      if code == DEBUG_CMD_SET_DEBUG {
        SetDebugCommand(data);
      } else if code == DEBUG_CMD_SET_US_MODE {
        SetUsModeCommand(data);
      } else if code == DEBUG_CMD_SET_US_SENSOR {
        SetUsSensorCommand(data);
      } else {
        SetUsOutputCommand(data);
      }
      debugCommand := DEBUG_CMD_NONE;
    }

    /** `DEBUG_CMD_SET_DEBUG` with its data byte. */
    method SetDebugCommand(data: byte)
      requires Valid()
      modifies this`debugEnabled,
               debug`indexTXRead, debug`indexTXWrite, debug`countTX, debug`overflowTX, debug`txSent, debug.bufferTX
      ensures Valid()
      ensures var r := Execute(old(CurrentSettings()), SetDebug(data));
              CurrentSettings() == r.0 && debug.TxStream() == old(debug.TxStream()) + Render(r.1)
    {
      if data != 0 {
        debugEnabled := true;
        DebugPrint("DEBUG ENABLED", true);
      } else {
        DebugPrint("DEBUG DISABLED", true);
        debugEnabled := false;
      }
    }

    /** `DEBUG_CMD_SET_US_MODE` with its data byte: the change of mode, then
        its notice (every case of the code prints last).  The array's own
        mode (`usarray_set_mode`) is not changed. */
    method SetUsModeCommand(data: byte)
      requires Valid()
      modifies this`usarrayEnabled, this`numSensors, sensors,
               debug`indexTXRead, debug`indexTXWrite, debug`countTX, debug`overflowTX, debug`txSent, debug.bufferTX
      ensures Valid()
      ensures var r := Execute(old(CurrentSettings()), SetUsMode(data));
              CurrentSettings() == r.0 && debug.TxStream() == old(debug.TxStream()) + Render(r.1)
    {
      SelectMode(data);
      DebugPrint(ModeText(data), true);
    }

    /** The state change of each mode: 0 disables the array, 1 lists the
        array's selected sensor alone, 2 lists all ten in order. */
    method SelectMode(data: byte)
      requires Valid()
      modifies this`usarrayEnabled, this`numSensors, sensors
      ensures Valid()
      ensures CurrentSettings() == ApplyMode(old(CurrentSettings()), data)
    {
      if data == 0 {
        usarrayEnabled := false;
      } else if data == 1 {
        numSensors := 1;
        var s := usArray.GetSensor();
        sensors[0] := s;
        usarrayEnabled := true;
      } else if data == 2 {
        numSensors := 10;
        forall k | 0 <= k < US_SENSOR_COUNT {
          sensors[k] := k;
        }
        assert sensors[..] == ALL_SENSORS;
        usarrayEnabled := true;
      }
    }

    /** `DEBUG_CMD_SET_US_SENSOR` with its data byte, read as a signed
        `char`: only 0 to 9 select a sensor. */
    method SetUsSensorCommand(data: byte)
      requires Valid()
      modifies sensors, usArray`usSensorIndex,
               debug`indexTXRead, debug`indexTXWrite, debug`countTX, debug`overflowTX, debug`txSent, debug.bufferTX
      ensures Valid()
      ensures var r := Execute(old(CurrentSettings()), SetUsSensor(data));
              CurrentSettings() == r.0 && debug.TxStream() == old(debug.TxStream()) + Render(r.1)
    {
      var d := ToInt8(data);
      if d >= 0 && d < US_SENSOR_COUNT {
        SelectSensor(d);
      } else {
        DebugPrint("US SENSOR SELECT - NOT RECOGNISED!", true);
      }
    }

    /** The accepted case of `DEBUG_CMD_SET_US_SENSOR`: select sensor `d`,
        make it the only listed one when a single sensor is listed, and
        echo it. */
    method SelectSensor(d: byte)
      requires Valid() && d < US_SENSOR_COUNT
      modifies sensors, usArray`usSensorIndex,
               debug`indexTXRead, debug`indexTXWrite, debug`countTX, debug`overflowTX, debug`txSent, debug.bufferTX
      ensures Valid()
      ensures var r := Execute(old(CurrentSettings()), SetUsSensor(d));
              CurrentSettings() == r.0 && debug.TxStream() == old(debug.TxStream()) + Render(r.1)
    {
      ghost var s0 := CurrentSettings();
      usArray.SetSensor(d);
      ListSelected(d);
      assert CurrentSettings() == ApplySensor(s0, d);
      if debugEnabled {
        DebugChar(debug, "US SENSOR SELECT - ", ZERO + d);
      }
    }

    /** A single listed sensor is replaced by the selected one `d`. */
    method ListSelected(d: SensorNum)
      requires Valid()
      modifies sensors
      ensures Valid()
      ensures sensors[..] == if numSensors == 1 then old(sensors[..])[0 := d] else old(sensors[..])
    {
      if numSensors == 1 {
        sensors[0] := d;
      }
    }

    /** `DEBUG_CMD_SET_US_OUTPUT` with its data byte: the change of output
        mode, then its notice. */
    method SetUsOutputCommand(data: byte)
      requires Valid()
      modifies this`usarrayOutputMode,
               debug`indexTXRead, debug`indexTXWrite, debug`countTX, debug`overflowTX, debug`txSent, debug.bufferTX
      ensures Valid()
      ensures var r := Execute(old(CurrentSettings()), SetUsOutput(data));
              CurrentSettings() == r.0 && debug.TxStream() == old(debug.TxStream()) + Render(r.1)
    {
      if data == 0 {
        usarrayOutputMode := US_OUTPUT_NONE;
      } else if data == 1 {
        usarrayOutputMode := US_OUTPUT_WAVEFORM;
      } else if data == 2 {
        usarrayOutputMode := US_OUTPUT_RANGE;
      }
      DebugPrint(OutputText(data), true);
    }

    /** `DEBUG_CMD_SET_US_TRIGGERS` as a poll: wait for the ten data bytes,
        then act on them. */
    method TriggersStep()
      requires Valid() && debugCommand == DEBUG_CMD_SET_US_TRIGGERS as int
      modifies this`debugCommand,
               usArray`usTriggerChangeIndex, usArray`usTriggerNearLower,
               usArray`usTriggerNearUpper, usArray`usTriggerFarUpper, usArray`usTriggerFarLower,
               debug`indexRXRead, debug`countRX,
               debug`indexTXRead, debug`indexTXWrite, debug`countTX, debug`overflowTX, debug`txSent, debug.bufferTX
      ensures Valid()
      ensures DebugPollDone(ParsePending(DEBUG_CMD_SET_US_TRIGGERS, old(debugRobotCmdSizeReceived), old(debug.RxContents())),
                            old(CurrentSettings()), old(debugRobotCmdSizeReceived), old(debug.RxContents()),
                            old(debug.TxStream()), old(robot.TxStream()), old(passthrough))
    {
      var n := debug.GetRxCount();
      if n < 10 {
        return;
      }
      TriggersRun();
    }

    /** `DEBUG_CMD_SET_US_TRIGGERS` once its ten bytes are buffered, as a
        poll. */
    method TriggersRun()
      requires Valid() && debugCommand == DEBUG_CMD_SET_US_TRIGGERS as int && |debug.RxContents()| >= 10
      modifies this`debugCommand,
               usArray`usTriggerChangeIndex, usArray`usTriggerNearLower,
               usArray`usTriggerNearUpper, usArray`usTriggerFarUpper, usArray`usTriggerFarLower,
               debug`indexRXRead, debug`countRX,
               debug`indexTXRead, debug`indexTXWrite, debug`countTX, debug`overflowTX, debug`txSent, debug.bufferTX
      ensures Valid()
      ensures DebugPollDone(ParsePending(DEBUG_CMD_SET_US_TRIGGERS, old(debugRobotCmdSizeReceived), old(debug.RxContents())),
                            old(CurrentSettings()), old(debugRobotCmdSizeReceived), old(debug.RxContents()),
                            old(debug.TxStream()), old(robot.TxStream()), old(passthrough))
    {
      TriggersCommand();
    }

    /** The `DEBUG_CMD_SET_US_TRIGGERS` case once its data is there: read
        five little-endian `unsigned short`s, set the triggers, report
        them, and the command is done. */
    method TriggersCommand()
      requires Valid() && |debug.RxContents()| >= 10
      modifies this`debugCommand,
               usArray`usTriggerChangeIndex, usArray`usTriggerNearLower,
               usArray`usTriggerNearUpper, usArray`usTriggerFarUpper, usArray`usTriggerFarLower,
               debug`indexRXRead, debug`countRX,
               debug`indexTXRead, debug`indexTXWrite, debug`countTX, debug`overflowTX, debug`txSent, debug.bufferTX
      ensures Valid()
      ensures debugCommand == DEBUG_CMD_NONE
      ensures debug.RxContents() == old(debug.RxContents())[10..]
      ensures var rx := old(debug.RxContents());
              var r := Execute(old(CurrentSettings()),
                               SetUsTriggers(Le16(rx[0], rx[1]), Le16(rx[2], rx[3]), Le16(rx[4], rx[5]),
                                             Le16(rx[6], rx[7]), Le16(rx[8], rx[9])));
              CurrentSettings() == r.0 && debug.TxStream() == old(debug.TxStream()) + Render(r.1)
    {
      var raw := ReadBytes(debug, 10);
      var c, nl, nu := Le16(raw[0], raw[1]), Le16(raw[2], raw[3]), Le16(raw[4], raw[5]);
      var fl, fu := Le16(raw[6], raw[7]), Le16(raw[8], raw[9]);
      SetTriggers(c, nl, nu, fl, fu);
      debugCommand := DEBUG_CMD_NONE;
    }

    /** `usarray_set_triggers` with the five values, and their report. */
    method SetTriggers(c: u16, nl: u16, nu: u16, fl: u16, fu: u16)
      requires Valid()
      modifies usArray`usTriggerChangeIndex, usArray`usTriggerNearLower,
               usArray`usTriggerNearUpper, usArray`usTriggerFarUpper, usArray`usTriggerFarLower,
               debug`indexTXRead, debug`indexTXWrite, debug`countTX, debug`overflowTX, debug`txSent, debug.bufferTX
      ensures Valid()
      ensures var r := Execute(old(CurrentSettings()), SetUsTriggers(c, nl, nu, fl, fu));
              CurrentSettings() == r.0 && debug.TxStream() == old(debug.TxStream()) + Render(r.1)
    {
      usArray.SetTriggers(c, nl, nu, fl, fu);
      if debugEnabled {
        PrintTriggers(debug, c, nl, nu, fl, fu);
      }
    }

    /** `DEBUG_CMD_ROBOT_COMMAND` as a poll: with no length held, wait for
        the length byte and read it; then go on as `RobotPayloadStep`. */
    method RobotCommandStep()
      requires Valid() && debugCommand == DEBUG_CMD_ROBOT_COMMAND as int
      modifies this`debugCommand, this`debugRobotCmdSizeReceived,
               debug`indexRXRead, debug`countRX,
               debug`indexTXRead, debug`indexTXWrite, debug`countTX, debug`overflowTX, debug`txSent, debug.bufferTX,
               robot`indexTXRead, robot`indexTXWrite, robot`countTX, robot`overflowTX, robot`txSent, robot.bufferTX
      ensures Valid()
      ensures DebugPollDone(ParsePending(DEBUG_CMD_ROBOT_COMMAND, old(debugRobotCmdSizeReceived), old(debug.RxContents())),
                            old(CurrentSettings()), old(debugRobotCmdSizeReceived), old(debug.RxContents()),
                            old(debug.TxStream()), old(robot.TxStream()), old(passthrough))
    {
      if debugRobotCmdSizeReceived == 0 {
        var n := debug.GetRxCount();
        if n < 1 {
          return;
        }
        LengthThenPayload();
      } else {
        RobotPayloadStep();
      }
    }

    /** Read the length byte of a robot command into a signed `char`, then
        go on as `RobotPayloadStep`. */
    method LengthThenPayload()
      requires Valid() && debugCommand == DEBUG_CMD_ROBOT_COMMAND as int
      requires debugRobotCmdSizeReceived == 0 && |debug.RxContents()| >= 1
      modifies this`debugCommand, this`debugRobotCmdSizeReceived,
               debug`indexRXRead, debug`countRX,
               debug`indexTXRead, debug`indexTXWrite, debug`countTX, debug`overflowTX, debug`txSent, debug.bufferTX,
               robot`indexTXRead, robot`indexTXWrite, robot`countTX, robot`overflowTX, robot`txSent, robot.bufferTX
      ensures Valid()
      ensures DebugPollDone(ParsePending(DEBUG_CMD_ROBOT_COMMAND, old(debugRobotCmdSizeReceived), old(debug.RxContents())),
                            old(CurrentSettings()), old(debugRobotCmdSizeReceived), old(debug.RxContents()),
                            old(debug.TxStream()), old(robot.TxStream()), old(passthrough))
    {
      ghost var rx0 := debug.RxContents();
      var len := debug.GetChar();
      debugRobotCmdSizeReceived := ToInt8(len);
      ghost var q := RobotPayload(debugRobotCmdSizeReceived, rx0[1..]);
      assert ParsePending(DEBUG_CMD_ROBOT_COMMAND, 0, rx0) == Shift(q, 1);
      RobotPayloadStep();
      DropDrop(rx0, 1, Consumed(q));
    }

    /** The robot command once its length is held, as a poll: wait until
        that many bytes are buffered, then issue the command. */
    method RobotPayloadStep()
      requires Valid() && debugCommand == DEBUG_CMD_ROBOT_COMMAND as int
      modifies this`debugCommand, this`debugRobotCmdSizeReceived,
               debug`indexRXRead, debug`countRX,
               debug`indexTXRead, debug`indexTXWrite, debug`countTX, debug`overflowTX, debug`txSent, debug.bufferTX,
               robot`indexTXRead, robot`indexTXWrite, robot`countTX, robot`overflowTX, robot`txSent, robot.bufferTX
      ensures Valid()
      ensures DebugPollDone(RobotPayload(old(debugRobotCmdSizeReceived), old(debug.RxContents())),
                            old(CurrentSettings()), old(debugRobotCmdSizeReceived), old(debug.RxContents()),
                            old(debug.TxStream()), old(robot.TxStream()), old(passthrough))
    {
      var n := debug.GetRxCount();
      if n < debugRobotCmdSizeReceived {
        return;
      }
      RobotRun();
    }

    /** The robot command once its payload is buffered, as a poll. */
    method RobotRun()
      requires Valid() && debugCommand == DEBUG_CMD_ROBOT_COMMAND as int
      requires debugRobotCmdSizeReceived <= |debug.RxContents()|
      modifies this`debugCommand, this`debugRobotCmdSizeReceived,
               debug`indexRXRead, debug`countRX,
               debug`indexTXRead, debug`indexTXWrite, debug`countTX, debug`overflowTX, debug`txSent, debug.bufferTX,
               robot`indexTXRead, robot`indexTXWrite, robot`countTX, robot`overflowTX, robot`txSent, robot.bufferTX
      ensures Valid()
      ensures DebugPollDone(RobotPayload(old(debugRobotCmdSizeReceived), old(debug.RxContents())),
                            old(CurrentSettings()), old(debugRobotCmdSizeReceived), old(debug.RxContents()),
                            old(debug.TxStream()), old(robot.TxStream()), old(passthrough))
    {
      IssueRobotCommand();
    }

    /** The rest of the `DEBUG_CMD_ROBOT_COMMAND` case once the payload is
        buffered: forward it, report it, and the command is done. */
    method IssueRobotCommand()
      requires Valid() && debugRobotCmdSizeReceived <= |debug.RxContents()|
      modifies this`debugCommand, this`debugRobotCmdSizeReceived,
               debug`indexRXRead, debug`countRX,
               debug`indexTXRead, debug`indexTXWrite, debug`countTX, debug`overflowTX, debug`txSent, debug.bufferTX,
               robot`indexTXRead, robot`indexTXWrite, robot`countTX, robot`overflowTX, robot`txSent, robot.bufferTX
      ensures Valid()
      ensures debugCommand == DEBUG_CMD_NONE
      ensures var n := if old(debugRobotCmdSizeReceived) > 0 then old(debugRobotCmdSizeReceived) as nat else 0;
              && debugRobotCmdSizeReceived == (if n > 0 then 0 else old(debugRobotCmdSizeReceived))
              && debug.RxContents() == old(debug.RxContents())[n..]
              && robot.TxStream() == old(robot.TxStream()) + old(debug.RxContents())[..n]
      ensures debug.TxStream() == old(debug.TxStream()) + Render(DebugText(old(debugEnabled), "ROBOT CMD ISSUED", true))
    {
      ForwardPayload();
      DebugPrint("ROBOT CMD ISSUED", true);
      debugCommand := DEBUG_CMD_NONE;
    }

    /** The forwarding loop: a positive length moves that many bytes from
        the PC ring to the robot ring and counts down to 0; a length of 0
        or below moves nothing. */
    method ForwardPayload()
      requires Valid() && debugRobotCmdSizeReceived <= |debug.RxContents()|
      modifies this`debugRobotCmdSizeReceived, debug`indexRXRead, debug`countRX,
               robot`indexTXRead, robot`indexTXWrite, robot`countTX, robot`overflowTX, robot`txSent, robot.bufferTX
      ensures Valid()
      ensures var n := if old(debugRobotCmdSizeReceived) > 0 then old(debugRobotCmdSizeReceived) as nat else 0;
              && debugRobotCmdSizeReceived == (if n > 0 then 0 else old(debugRobotCmdSizeReceived))
              && debug.RxContents() == old(debug.RxContents())[n..]
              && robot.TxStream() == old(robot.TxStream()) + old(debug.RxContents())[..n]
    {
      ghost var rx0, t0 := debug.RxContents(), robot.TxStream();
      ghost var size0 := debugRobotCmdSizeReceived;
      ghost var k: nat := 0;
      while debugRobotCmdSizeReceived > 0
        invariant Valid()
        invariant debugRobotCmdSizeReceived == size0 - k
        invariant k <= (if size0 > 0 then size0 as int else 0) && k <= |rx0|
        invariant debug.RxContents() == rx0[k..] && robot.TxStream() == t0 + rx0[..k]
        decreases debugRobotCmdSizeReceived
      {
        ForwardByte(rx0, t0, k);
        debugRobotCmdSizeReceived := debugRobotCmdSizeReceived - 1;
        k := k + 1;
      }
    }

    /** One pass of the forwarding loop: the byte at position `k` of the
        payload `rx0` moves from the PC ring to the robot stream `t0`. */
    method ForwardByte(ghost rx0: seq<byte>, ghost t0: seq<byte>, ghost k: nat)
      requires Valid() && k < |rx0|
      requires debug.RxContents() == rx0[k..] && robot.TxStream() == t0 + rx0[..k]
      modifies debug`indexRXRead, debug`countRX,
               robot`indexTXRead, robot`indexTXWrite, robot`countTX, robot`overflowTX, robot`txSent, robot.bufferTX
      ensures Valid()
      ensures debug.RxContents() == rx0[k + 1..] && robot.TxStream() == t0 + rx0[..k + 1]
    {
      var data := debug.GetChar();
      robot.PutCharBlocking(data);
      assert rx0[..k + 1] == rx0[..k] + [rx0[k]];
    }

    /** The commands without data: ping, passthrough and any code that is
        not a command, as a poll. */
    method NoDataStep(code: byte)
      requires Valid() && debugCommand == code
      requires !OneByteCode(code) && code != DEBUG_CMD_SET_US_TRIGGERS && code != DEBUG_CMD_ROBOT_COMMAND
      modifies this`debugCommand, this`passthrough,
               debug`indexTXRead, debug`indexTXWrite, debug`countTX, debug`overflowTX, debug`txSent, debug.bufferTX
      ensures Valid()
      ensures DebugPollDone(ParsePending(code, old(debugRobotCmdSizeReceived), old(debug.RxContents())),
                            old(CurrentSettings()), old(debugRobotCmdSizeReceived), old(debug.RxContents()),
                            old(debug.TxStream()), old(robot.TxStream()), old(passthrough))
    {
      NoDataCommand(code);
    }

    /** The `DEBUG_CMD_PING` and `DEBUG_CMD_ROBOT_PASSTHROUGH` cases and the
        `default` case of the switch: each prints its notice first, code
        0x08 then enters passthrough, and the command is done. */
    method NoDataCommand(code: byte)
      requires Valid()
      modifies this`debugCommand, this`passthrough,
               debug`indexTXRead, debug`indexTXWrite, debug`countTX, debug`overflowTX, debug`txSent, debug.bufferTX
      ensures Valid()
      ensures debugCommand == DEBUG_CMD_NONE
      ensures CurrentSettings() == old(CurrentSettings())
      ensures debug.RxContents() == old(debug.RxContents()) && robot.TxStream() == old(robot.TxStream())
      ensures passthrough == (old(passthrough) || code == DEBUG_CMD_ROBOT_PASSTHROUGH)
      ensures debug.TxStream() == old(debug.TxStream()) + Render(DebugText(old(debugEnabled), NoticeText(code), true))
    {
      DebugPrint(NoticeText(code), true);
      if code == DEBUG_CMD_ROBOT_PASSTHROUGH {
        passthrough := true;
      }
      debugCommand := DEBUG_CMD_NONE;
    }

    // -------------------------------------------------------------------
    // The robot response channel

    /** The robot link, the position, the robot RX ring and the PC stream
        are those a poll of the robot channel with outcome `r` leaves,
        started on the RX bytes `rx0` and the PC stream `dtx0`. */
    ghost predicate Polling(r: Polled, rx0: seq<byte>, dtx0: seq<byte>)
      reads this, debug, debug.bufferTX, robot, robot.bufferRX, usArray, sensors, mpDebugBuf
      requires Valid()
    {
      && CurrentLink() == r.link && mpCurrentPos == r.pos
      && r.consumed <= |rx0| && robot.RxContents() == rx0[r.consumed..]
      && debug.TxStream() == dtx0 + Render(r.printed)
    }

    /** A poll that took `r.consumed` bytes after the first `k0` took
        `k0 + r.consumed` bytes of the whole. */
    lemma PollingShift(r: Polled, rx0: seq<byte>, dtx0: seq<byte>, k0: nat)
      requires Valid() && k0 <= |rx0| && Polling(r, rx0[k0..], dtx0)
      ensures Polling(Polled(r.link, r.pos, k0 + r.consumed, r.printed), rx0, dtx0)
    {
      DropDrop(rx0, k0, r.consumed);
    }

    /** `ProcessSerial3PI`: one poll of the robot channel, as `Poll3PI`
        describes it. */
    method ProcessSerial3PI()
      requires Valid()
      modifies this`mpResponse, this`mpDebugParse, this`mpDebugIndex, this`mpCurrentPos, mpDebugBuf,
               robot`indexRXRead, robot`countRX,
               debug`indexTXRead, debug`indexTXWrite, debug`countTX, debug`overflowTX, debug`txSent, debug.bufferTX
      ensures Valid()
      ensures Polling(Poll3PI(old(CurrentLink()), old(robot.RxContents()), debugEnabled, old(mpCurrentPos)),
                      old(robot.RxContents()), old(debug.TxStream()))
    {
      if mpResponse == PLATFORM_RESP_NONE {
        FirstResponseThenStrip();
      } else {
        assert robot.RxContents()[0..] == robot.RxContents();
        StripAndDispatch();
      }
    }

    /** `ProcessSerial3PI` with no response held: read one (or note that
        none has come), then strip and dispatch. */
    method FirstResponseThenStrip()
      requires Valid() && mpResponse == PLATFORM_RESP_NONE
      modifies this`mpResponse, this`mpDebugParse, this`mpDebugIndex, this`mpCurrentPos, mpDebugBuf,
               robot`indexRXRead, robot`countRX,
               debug`indexTXRead, debug`indexTXWrite, debug`countTX, debug`overflowTX, debug`txSent, debug.bufferTX
      ensures Valid()
      ensures Polling(Poll3PI(old(CurrentLink()), old(robot.RxContents()), debugEnabled, old(mpCurrentPos)),
                      old(robot.RxContents()), old(debug.TxStream()))
    {
      ghost var l0, rx0, pos0 := CurrentLink(), robot.RxContents(), mpCurrentPos;
      ghost var k0 := if rx0 == [] then 0 else 1;
      ReadFirstResponse();
      ghost var r := StripThenDispatch(l0.(response := Next(rx0)), rx0[k0..], debugEnabled, pos0);
      ghost var dtx0 := debug.TxStream();
      StripAndDispatch();
      PollingShift(r, rx0, dtx0, k0);
      PollFirst(l0, rx0, debugEnabled, pos0);
    }

    /** The read of the first response byte: `PLATFORM_RESP_NONE` when
        none has come. */
    method ReadFirstResponse()
      requires Valid()
      modifies this`mpResponse, robot`indexRXRead, robot`countRX
      ensures Valid()
      ensures CurrentLink() == old(CurrentLink()).(response := Next(old(robot.RxContents())))
      ensures robot.RxContents() == old(robot.RxContents())[if old(robot.RxContents()) == [] then 0 else 1..]
      ensures debug.TxStream() == old(debug.TxStream())
    {
      mpResponse := robot.GetChar();
    }

    /** The strip loop and the response switch of `ProcessSerial3PI`, as
        `StripThenDispatch` describes them. */
    method StripAndDispatch()
      requires Valid()
      modifies this`mpResponse, this`mpDebugParse, this`mpDebugIndex, this`mpCurrentPos, mpDebugBuf,
               robot`indexRXRead, robot`countRX,
               debug`indexTXRead, debug`indexTXWrite, debug`countTX, debug`overflowTX, debug`txSent, debug.bufferTX
      ensures Valid()
      ensures Polling(StripThenDispatch(old(CurrentLink()), old(robot.RxContents()), debugEnabled, old(mpCurrentPos)),
                      old(robot.RxContents()), old(debug.TxStream()))
    {
      ghost var l0, rx0, dtx0, pos0 := CurrentLink(), robot.RxContents(), debug.TxStream(), mpCurrentPos;
      StripDebugLines();
      DispatchAfterStrip(StripLoop(l0, rx0, debugEnabled), rx0, dtx0, pos0);
    }

    /** The response switch, once a strip loop with outcome `s` has run on
        the RX bytes `rx0` and the PC stream `dtx0`. */
    method DispatchAfterStrip(ghost s: Stripped, ghost rx0: seq<byte>, ghost dtx0: seq<byte>, ghost pos0: Position)
      requires Valid() && LinkValid(s.link) && s.consumed <= |rx0|
      requires && CurrentLink() == s.link && mpCurrentPos == pos0
               && robot.RxContents() == rx0[s.consumed..]
               && debug.TxStream() == dtx0 + Render(s.printed)
      modifies this`mpResponse, this`mpCurrentPos, robot`indexRXRead, robot`countRX,
               debug`indexTXRead, debug`indexTXWrite, debug`countTX, debug`overflowTX, debug`txSent, debug.bufferTX
      ensures Valid() && Polling(AfterStrip(s, rx0, debugEnabled, pos0), rx0, dtx0)
    {
      ghost var d := Dispatch(s.link.response, rx0[s.consumed..], debugEnabled, pos0);
      DispatchResponse();
      assert CurrentLink() == s.link.(response := d.response);
      DispatchPolling(s, d, rx0, dtx0, pos0);
    }

    /** The state the response switch `d` leaves after a strip loop with
        outcome `s` is the one `AfterStrip` describes. */
    lemma DispatchPolling(s: Stripped, d: Dispatched, rx0: seq<byte>, dtx0: seq<byte>, pos0: Position)
      requires Valid() && LinkValid(s.link) && s.consumed <= |rx0|
      requires d == Dispatch(s.link.response, rx0[s.consumed..], debugEnabled, pos0)
      requires CurrentLink() == s.link.(response := d.response) && mpCurrentPos == d.pos
      requires robot.RxContents() == rx0[s.consumed..][d.consumed..]
      requires debug.TxStream() == dtx0 + Render(s.printed) + Render(d.printed)
      ensures Polling(AfterStrip(s, rx0, debugEnabled, pos0), rx0, dtx0)
    {
      DropDrop(rx0, s.consumed, d.consumed);
      RenderExtend(dtx0, s.printed, d.printed);
    }

    /** The strip loop of `ProcessSerial3PI`, as `StripLoop` describes it. */
    method StripDebugLines()
      requires Valid()
      modifies this`mpResponse, this`mpDebugParse, this`mpDebugIndex, mpDebugBuf,
               robot`indexRXRead, robot`countRX,
               debug`indexTXRead, debug`indexTXWrite, debug`countTX, debug`overflowTX, debug`txSent, debug.bufferTX
      ensures Valid()
      ensures var s := StripLoop(old(CurrentLink()), old(robot.RxContents()), debugEnabled);
              && CurrentLink() == s.link
              && robot.RxContents() == old(robot.RxContents())[s.consumed..]
              && debug.TxStream() == old(debug.TxStream()) + Render(s.printed)
    {
      ghost var rx0, dtx0 := robot.RxContents(), debug.TxStream();
      ghost var final := StripLoop(CurrentLink(), rx0, debugEnabled);
      StripRest(final, rx0, dtx0, 0);
    }

    /** The strip loop from a state part way through it, with whole outcome
        `final`, on to its end. */
    method StripRest(ghost final: Stripped, ghost rx0: seq<byte>, ghost dtx0: seq<byte>, ghost taken0: nat)
      requires Valid() && Stripping(final, rx0, dtx0, taken0)
      modifies this`mpResponse, this`mpDebugParse, this`mpDebugIndex, mpDebugBuf,
               robot`indexRXRead, robot`countRX,
               debug`indexTXRead, debug`indexTXWrite, debug`countTX, debug`overflowTX, debug`txSent, debug.bufferTX
      ensures Valid()
      ensures && CurrentLink() == final.link
              && robot.RxContents() == rx0[final.consumed..]
              && debug.TxStream() == dtx0 + Render(final.printed)
    {
      ghost var taken := taken0;
      while mpResponse != PLATFORM_RESP_NONE
        invariant Valid() && Stripping(final, rx0, dtx0, taken)
        decreases |robot.RxContents()| + (if mpResponse == PLATFORM_RESP_NONE then 0 else 1)
      {
        var more;
        more, taken := StripStep(final, rx0, dtx0, taken);
        if !more {
          return;
        }
      }
      StripFinished(final, rx0, dtx0, taken);
    }

    /** Part way through the strip loop, whose whole outcome is `final`, on
        `rx0` and the PC stream `dtx0`: `taken` bytes were read, nothing was
        printed yet, and the rest of the loop is the loop on the current
        state. */
    ghost predicate Stripping(final: Stripped, rx0: seq<byte>, dtx0: seq<byte>, taken: nat)
      reads this, debug, debug.bufferTX, robot, robot.bufferRX, usArray, sensors, mpDebugBuf
      requires Valid()
    {
      && taken <= |rx0| && robot.RxContents() == rx0[taken..]
      && debug.TxStream() == dtx0
      && var s := StripLoop(CurrentLink(), robot.RxContents(), debugEnabled);
         final == Stripped(s.link, taken + s.consumed, s.printed)
    }

    /** Once no response is held, the strip loop is over: the state is
        its outcome. */
    lemma StripFinished(final: Stripped, rx0: seq<byte>, dtx0: seq<byte>, taken: nat)
      requires Valid() && mpResponse == PLATFORM_RESP_NONE && Stripping(final, rx0, dtx0, taken)
      ensures && CurrentLink() == final.link
              && robot.RxContents() == rx0[final.consumed..]
              && debug.TxStream() == dtx0 + Render(final.printed)
    {
      assert Render([]) == [];
    }

    /** One pass of the strip loop's body, as `StripPass` describes it.
        Either the loop goes on (`more`) with `taken'` bytes read in all,
        or it is over and the state is its outcome `final`. */
    method StripStep(ghost final: Stripped, ghost rx0: seq<byte>, ghost dtx0: seq<byte>, ghost taken: nat)
        returns (more: bool, ghost taken': nat)
      requires Valid() && mpResponse != PLATFORM_RESP_NONE && Stripping(final, rx0, dtx0, taken)
      modifies this`mpResponse, this`mpDebugParse, this`mpDebugIndex, mpDebugBuf,
               robot`indexRXRead, robot`countRX,
               debug`indexTXRead, debug`indexTXWrite, debug`countTX, debug`overflowTX, debug`txSent, debug.bufferTX
      ensures Valid()
      ensures more ==> Stripping(final, rx0, dtx0, taken')
      ensures more ==> |robot.RxContents()| + (if mpResponse == PLATFORM_RESP_NONE then 0 else 1)
                       < |old(robot.RxContents())| + 1
      ensures !more ==> && CurrentLink() == final.link
                        && robot.RxContents() == rx0[final.consumed..]
                        && debug.TxStream() == dtx0 + Render(final.printed)
    {
      ghost var l := CurrentLink();
      ghost var p := StripPass(l, robot.RxContents(), debugEnabled);
      more := StripPassStep();
      taken' := taken + p.consumed;
      StripPassed(final, rx0, dtx0, taken, l, p);
    }

    /** After one pass `p` of the loop's body from the link `l`, part way
        through the strip loop with whole outcome `final`: either the loop
        goes on from the new state, or the state is its outcome. */
    lemma StripPassed(final: Stripped, rx0: seq<byte>, dtx0: seq<byte>, taken: nat, l: Link, p: Pass)
      requires Valid() && LinkValid(l) && l.response != PLATFORM_RESP_NONE && taken <= |rx0|
      requires p == StripPass(l, rx0[taken..], debugEnabled)
      requires var s := StripLoop(l, rx0[taken..], debugEnabled);
               final == Stripped(s.link, taken + s.consumed, s.printed)
      requires && CurrentLink() == p.link
               && robot.RxContents() == rx0[taken..][p.consumed..]
               && debug.TxStream() == dtx0 + Render(p.printed)
      ensures p.more ==> Stripping(final, rx0, dtx0, taken + p.consumed)
      ensures !p.more ==> && CurrentLink() == final.link
                          && robot.RxContents() == rx0[final.consumed..]
                          && debug.TxStream() == dtx0 + Render(final.printed)
    {
      StripUnfold(l, rx0[taken..], debugEnabled);
      DropDrop(rx0, taken, p.consumed);
      if p.more {
        assert Render([]) == [];
      }
    }

    /** The statements of one pass of the strip loop's body; `more` says
        the loop goes on. */
    method StripPassStep() returns (more: bool)
      requires Valid() && mpResponse != PLATFORM_RESP_NONE
      modifies this`mpResponse, this`mpDebugParse, this`mpDebugIndex, mpDebugBuf,
               robot`indexRXRead, robot`countRX,
               debug`indexTXRead, debug`indexTXWrite, debug`countTX, debug`overflowTX, debug`txSent, debug.bufferTX
      ensures Valid()
      ensures var p := StripPass(old(CurrentLink()), old(robot.RxContents()), debugEnabled);
              && more == p.more && CurrentLink() == p.link
              && robot.RxContents() == old(robot.RxContents())[p.consumed..]
              && debug.TxStream() == old(debug.TxStream()) + Render(p.printed)
      ensures more ==> debug.TxStream() == old(debug.TxStream())
    {
      if !mpDebugParse && mpResponse == HASH as int {
        mpDebugParse := true;
        mpDebugIndex := 0;
      } else if mpDebugParse && mpResponse == NEWLINE as int {
        EndLine();
      }
      if mpDebugParse {
        StoreLineByte();
        more := true;
      } else {
        more := false;
      }
    }

    /** A '\n' inside a line: terminate the stored line, forward it when
        debugging is on, and read the byte after it; the pass ends the
        loop. */
    method EndLine()
      requires Valid() && mpDebugParse && mpResponse == NEWLINE as int
      modifies this`mpResponse, this`mpDebugParse, this`mpDebugIndex, mpDebugBuf,
               robot`indexRXRead, robot`countRX,
               debug`indexTXRead, debug`indexTXWrite, debug`countTX, debug`overflowTX, debug`txSent, debug.bufferTX
      ensures Valid() && !mpDebugParse
      ensures var p := StripPass(old(CurrentLink()), old(robot.RxContents()), debugEnabled);
              && !p.more && CurrentLink() == p.link
              && robot.RxContents() == old(robot.RxContents())[p.consumed..]
              && debug.TxStream() == old(debug.TxStream()) + Render(p.printed)
    {
      mpDebugParse := false;
      mpDebugBuf[mpDebugIndex] := NUL;
      if debugEnabled {
        PrintLine(debug, mpDebugBuf[..]);
      }
      mpResponse := robot.GetChar();
    }

    /** A byte inside a line: store it while there is room, then read the
        next byte, as `StoreByte` describes it. */
    method StoreLineByte()
      requires Valid() && mpDebugParse && mpResponse != PLATFORM_RESP_NONE
      modifies this`mpResponse, this`mpDebugIndex, mpDebugBuf, robot`indexRXRead, robot`countRX
      ensures Valid() && mpDebugParse
      ensures var p := StoreByte(old(CurrentLink()), old(robot.RxContents()));
              && CurrentLink() == p.link
              && robot.RxContents() == old(robot.RxContents())[p.consumed..]
    {
      if mpDebugIndex < MP_DEBUG_LAST {
        mpDebugBuf[mpDebugIndex] := mpResponse;
        mpDebugIndex := mpDebugIndex + 1;
      }
      mpResponse := robot.GetChar();
    }

    /** The response switch of `ProcessSerial3PI`, as `Dispatch` describes
        it. */
    method DispatchResponse()
      requires Valid()
      modifies this`mpResponse, this`mpCurrentPos, robot`indexRXRead, robot`countRX,
               debug`indexTXRead, debug`indexTXWrite, debug`countTX, debug`overflowTX, debug`txSent, debug.bufferTX
      ensures Valid()
      ensures var d := Dispatch(old(mpResponse), old(robot.RxContents()), debugEnabled, old(mpCurrentPos));
              && mpResponse == d.response && mpCurrentPos == d.pos
              && robot.RxContents() == old(robot.RxContents())[d.consumed..]
              && debug.TxStream() == old(debug.TxStream()) + Render(d.printed)
    {
      if mpResponse == PLATFORM_RESP_NONE {
        return;
      } else if mpResponse == PLATFORM_RESP_OK as int {
        DebugPrint("3PI CMD OK", true);
      } else if mpResponse == PLATFORM_RESP_ERR as int {
        DebugPrint("3PI CMD ERROR", true);
      } else if mpResponse == PLATFORM_RESP_POS as int {
        var done := PositionStep();
        if !done {
          return;
        }
      } else if mpResponse == PLATFORM_RESP_BTN as int {
        var done := ButtonStep();
        if !done {
          return;
        }
      }
      mpResponse := PLATFORM_RESP_NONE;
    }

    /** The position-update case: `done` is false while its six bytes are
        not all buffered. */
    method PositionStep() returns (done: bool)
      requires Valid()
      modifies this`mpCurrentPos, robot`indexRXRead, robot`countRX,
               debug`indexTXRead, debug`indexTXWrite, debug`countTX, debug`overflowTX, debug`txSent, debug.bufferTX
      ensures Valid()
      ensures var d := PositionResponse(old(robot.RxContents()), debugEnabled, old(mpCurrentPos));
              && done == (d.response == PLATFORM_RESP_NONE) && mpCurrentPos == d.pos
              && robot.RxContents() == old(robot.RxContents())[d.consumed..]
              && debug.TxStream() == old(debug.TxStream()) + Render(d.printed)
    {
      var n := robot.GetRxCount();
      if n < 6 {
        return false;
      }
      var data := ReadBytes(robot, 6);
      mpCurrentPos := Position(ToInt16(Le16(data[0], data[1])), ToInt16(Le16(data[2], data[3])),
                               ToInt16(Le16(data[4], data[5])));
      if debugEnabled {
        PrintPosition(debug, mpCurrentPos);
      }
      return true;
    }

    /** The button-press case: `done` is false while its byte is not
        buffered. */
    method ButtonStep() returns (done: bool)
      requires Valid()
      modifies robot`indexRXRead, robot`countRX,
               debug`indexTXRead, debug`indexTXWrite, debug`countTX, debug`overflowTX, debug`txSent, debug.bufferTX
      ensures Valid()
      ensures var d := ButtonResponse(old(robot.RxContents()), debugEnabled, mpCurrentPos);
              && done == (d.response == PLATFORM_RESP_NONE)
              && robot.RxContents() == old(robot.RxContents())[d.consumed..]
              && debug.TxStream() == old(debug.TxStream()) + Render(d.printed)
    {
      var n := robot.GetRxCount();
      if n < 1 {
        return false;
      }
      ButtonRun();
      return true;
    }

    /** The button-press case once its byte is buffered: read it as a
        signed `char` and report it. */
    method ButtonRun()
      requires Valid() && |robot.RxContents()| >= 1
      modifies robot`indexRXRead, robot`countRX,
               debug`indexTXRead, debug`indexTXWrite, debug`countTX, debug`overflowTX, debug`txSent, debug.bufferTX
      ensures Valid()
      ensures var d := ButtonResponse(old(robot.RxContents()), debugEnabled, mpCurrentPos);
              && d.response == PLATFORM_RESP_NONE
              && robot.RxContents() == old(robot.RxContents())[d.consumed..]
              && debug.TxStream() == old(debug.TxStream()) + Render(d.printed)
    {
      ghost var rx0 := robot.RxContents();
      ghost var d := ButtonResponse(rx0, debugEnabled, mpCurrentPos);
      var b := robot.GetChar();
      var data := ToInt8(b);
      assert d.printed == if debugEnabled then DebugText(true, "3PI BTN PRESS: ", false) + [Char((ZERO + data) % 0x100), Char(NEWLINE)] else [];
      ButtonReport((ZERO + data) % 0x100);
    }

    /** The report of a button press, echoing `c`, when debugging is on. */
    method ButtonReport(c: byte)
      requires Valid()
      modifies debug`indexTXRead, debug`indexTXWrite, debug`countTX, debug`overflowTX, debug`txSent, debug.bufferTX
      ensures Valid()
      ensures debug.TxStream() == old(debug.TxStream())
                + Render(if debugEnabled then DebugText(true, "3PI BTN PRESS: ", false) + [Char(c), Char(NEWLINE)] else [])
    {
      if debugEnabled {
        DebugChar(debug, "3PI BTN PRESS: ", c);
      }
    }

    // -------------------------------------------------------------------
    // The ultrasound output

    /** The frame the output mode sends for the current table and ranges. */
    ghost function Report(): seq<byte>
      requires Valid()
      reads this, debug, robot, usArray, usArray.usWaveformData, usArray.usRangeReadings, sensors
    {
      Frame(usarrayOutputMode, Table(), usArray.usRangeReadings[..], sensors[..numSensors])
    }

    /** The waveform table, one row per sensor position. */
    ghost function Table(): (t: seq<seq<u16>>)
      requires usArray.Valid()
      reads usArray, usArray.usWaveformData
      ensures |t| == US_SENSOR_COUNT
      ensures forall s :: 0 <= s < US_SENSOR_COUNT ==> t[s] == usArray.Row(s)
    {
      seq(US_SENSOR_COUNT, s requires 0 <= s < US_SENSOR_COUNT reads usArray, usArray.usWaveformData => usArray.Row(s))
    }

    /** `ProcessUSArray`: when the array is enabled and some sensor is
        listed, scan, update the ranges and send the frame of the output
        mode on the PC channel.  `replies` are the receiver's reply words
        for the scanned positions. */
    method ProcessUSArray(replies: seq<seq<bv32>>) returns (pulses: seq<bv32>, requests: seq<bv32>)
      requires Valid()
      requires |replies| == SensorEnd(usArray.usMode, usArray.usSensorIndex) - SensorStart(usArray.usMode, usArray.usSensorIndex)
      requires forall j :: 0 <= j < |replies| ==> |replies[j]| == US_RX_COUNT
      modifies usArray`usSampleIndex, usArray.usWaveformData, usArray.usRangeReadings,
               debug`indexTXRead, debug`indexTXWrite, debug`countTX, debug`overflowTX, debug`txSent, debug.bufferTX
      ensures Valid()
      ensures !(usarrayEnabled && numSensors > 0) ==>
                && pulses == [] && requests == []
                && usArray.usSampleIndex == old(usArray.usSampleIndex)
                && unchanged(usArray.usWaveformData) && unchanged(usArray.usRangeReadings)
                && debug.TxStream() == old(debug.TxStream())
      ensures usarrayEnabled && numSensors > 0 ==>
                var lo, hi := SensorStart(usArray.usMode, usArray.usSensorIndex), SensorEnd(usArray.usMode, usArray.usSensorIndex);
                && pulses == ScanPulses(lo, hi) && requests == ScanRequests(lo, hi)
                && usArray.Scanned(replies) && usArray.Ranged()
                && debug.TxStream() == old(debug.TxStream()) + Report()
    {
      pulses, requests := [], [];
      if usarrayEnabled && numSensors > 0 {
        pulses, requests := ScanAndReport(replies);
      }
    }

    /** The enabled path of `ProcessUSArray`: scan, update the ranges, and
        send the frame unless the output mode is none. */
    method ScanAndReport(replies: seq<seq<bv32>>) returns (pulses: seq<bv32>, requests: seq<bv32>)
      requires Valid()
      requires |replies| == SensorEnd(usArray.usMode, usArray.usSensorIndex) - SensorStart(usArray.usMode, usArray.usSensorIndex)
      requires forall j :: 0 <= j < |replies| ==> |replies[j]| == US_RX_COUNT
      modifies usArray`usSampleIndex, usArray.usWaveformData, usArray.usRangeReadings,
               debug`indexTXRead, debug`indexTXWrite, debug`countTX, debug`overflowTX, debug`txSent, debug.bufferTX
      ensures Valid()
      ensures var lo, hi := SensorStart(usArray.usMode, usArray.usSensorIndex), SensorEnd(usArray.usMode, usArray.usSensorIndex);
              && pulses == ScanPulses(lo, hi) && requests == ScanRequests(lo, hi)
              && usArray.Scanned(replies) && usArray.Ranged()
              && debug.TxStream() == old(debug.TxStream()) + Report()
    {
      pulses, requests := usArray.ScanAndRange(replies);
      ReportFrame();
    }

    /** The output of `ProcessUSArray`: the frame of the output mode,
        nothing when the mode is none. */
    method ReportFrame()
      requires Valid()
      modifies debug`indexTXRead, debug`indexTXWrite, debug`countTX, debug`overflowTX, debug`txSent, debug.bufferTX
      ensures Valid()
      ensures debug.TxStream() == old(debug.TxStream()) + Report()
    {
      if usarrayOutputMode != US_OUTPUT_NONE {
        EmitFrame();
      }
    }

    /** The frame of an output mode other than none: the start marker, the
        body of the mode, the end marker. */
    method EmitFrame()
      requires Valid() && usarrayOutputMode != US_OUTPUT_NONE
      modifies debug`indexTXRead, debug`indexTXWrite, debug`countTX, debug`overflowTX, debug`txSent, debug.bufferTX
      ensures Valid()
      ensures debug.TxStream()
           == old(debug.TxStream()) + Report()
    {
      ghost var t0 := debug.TxStream();
      ghost var body := Body(usarrayOutputMode, Table(), usArray.usRangeReadings[..], sensors[..numSensors]);
      PutPair(debug, 0xFF, 0xFF);
      EmitBody();
      AppendAssoc(t0, FRAME_START, body);
      PutPair(debug, 0x7F, 0xFF);
      AppendAssoc(t0, FRAME_START + body, FRAME_END);
    }

    /** The body of the output mode, between the markers. */
    method EmitBody()
      requires Valid()
      modifies debug`indexTXRead, debug`indexTXWrite, debug`countTX, debug`overflowTX, debug`txSent, debug.bufferTX
      ensures Valid()
      ensures debug.TxStream()
           == old(debug.TxStream()) + Body(usarrayOutputMode, Table(), usArray.usRangeReadings[..], sensors[..numSensors])
    {
      if usarrayOutputMode == US_OUTPUT_WAVEFORM {
        EmitWaveforms();
      } else if usarrayOutputMode == US_OUTPUT_RANGE {
        EmitRanges();
      }
    }

    /** The waveform body: each listed sensor's row, in list order. */
    method EmitWaveforms()
      requires Valid()
      modifies debug`indexTXRead, debug`indexTXWrite, debug`countTX, debug`overflowTX, debug`txSent, debug.bufferTX
      ensures Valid()
      ensures debug.TxStream() == old(debug.TxStream()) + WaveformBody(Table(), sensors[..numSensors])
    {
      ghost var table := Table();
      for i := 0 to numSensors
        invariant Valid() && table == Table()
        invariant debug.TxStream() == old(debug.TxStream()) + WaveformBody(table, sensors[..i])
      {
        EmitBlock(i, table, old(debug.TxStream()));
      }
    }

    /** The block of the `i`-th listed sensor, after the blocks before it. */
    method EmitBlock(i: nat, ghost table: seq<seq<u16>>, ghost t0: seq<byte>)
      requires Valid() && i < numSensors && table == Table()
      requires debug.TxStream() == t0 + WaveformBody(table, sensors[..i])
      modifies debug`indexTXRead, debug`indexTXWrite, debug`countTX, debug`overflowTX, debug`txSent, debug.bufferTX
      ensures Valid()
      ensures debug.TxStream() == t0 + WaveformBody(table, sensors[..i + 1])
    {
      EmitRow(i);
      assert sensors[..i + 1][..i] == sensors[..i];
      assert table[sensors[i]] == usArray.Row(sensors[i]);
    }

    /** The items of the `i`-th listed sensor's row. */
    method EmitRow(i: nat)
      requires Valid() && i < numSensors
      modifies debug`indexTXRead, debug`indexTXWrite, debug`countTX, debug`overflowTX, debug`txSent, debug.bufferTX
      ensures Valid()
      ensures debug.TxStream() == old(debug.TxStream()) + RowPairs(sensors[i], usArray.Row(sensors[i]))
    {
      ghost var row := usArray.Row(sensors[i]);
      for j := 0 to US_RX_COUNT
        invariant Valid()
        invariant debug.TxStream() == old(debug.TxStream()) + RowPairs(sensors[i], row[..j])
      {
        var sensorNum := sensors[i];
        var item := Pair(sensorNum, usArray.usWaveformData[sensorNum, j]);
        PutPair(debug, item[0], item[1]);
        assert row[..j + 1][..j] == row[..j];
      }
      assert row[..US_RX_COUNT] == row;
    }

    /** The range body: one item per listed sensor, tagged with its place
        in the list. */
    method EmitRanges()
      requires Valid()
      modifies debug`indexTXRead, debug`indexTXWrite, debug`countTX, debug`overflowTX, debug`txSent, debug.bufferTX
      ensures Valid()
      ensures debug.TxStream() == old(debug.TxStream()) + RangeBody(usArray.usRangeReadings[..], sensors[..numSensors])
    {
      ghost var readings := usArray.usRangeReadings[..];
      for i := 0 to numSensors
        invariant Valid()
        invariant debug.TxStream() == old(debug.TxStream()) + RangeBody(readings, sensors[..i])
      {
        var sensorNum := sensors[i];
        var item := Pair(i, usArray.usRangeReadings[sensorNum]);
        PutPair(debug, item[0], item[1]);
        assert sensors[..i + 1][..i] == sensors[..i];
      }
    }
  }
}
