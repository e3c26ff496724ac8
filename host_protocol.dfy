/** The PC debug channel (`ProcessSerialDebug` in `ultrasound.c`) as a pure
    protocol: which command a poll completes, or which pending state it
    leaves for the next poll, and what each complete command does to the
    settings and prints.  The controller's method is proved against these
    functions. */
module HostProtocol {
  import opened Bytes
  import opened Uart
  import opened UsArray

  const DEBUG_CMD_NONE: int := -1
  const DEBUG_CMD_SET_DEBUG: byte := 0x01
  const DEBUG_CMD_SET_US_MODE: byte := 0x02
  const DEBUG_CMD_SET_US_SENSOR: byte := 0x03
  const DEBUG_CMD_SET_US_TRIGGERS: byte := 0x04
  const DEBUG_CMD_SET_US_OUTPUT: byte := 0x05
  const DEBUG_CMD_ROBOT_COMMAND: byte := 0x06
  const DEBUG_CMD_PING: byte := 0x07
  const DEBUG_CMD_ROBOT_PASSTHROUGH: byte := 0x08

  const US_OUTPUT_NONE: byte := 0x00
  const US_OUTPUT_WAVEFORM: byte := 0x01
  const US_OUTPUT_RANGE: byte := 0x02

  /** A complete command from the PC. */
  datatype HostCommand =
    | SetDebug(flag: byte)
    | SetUsMode(mode: byte)
    | SetUsSensor(sensor: byte)
    | SetUsTriggers(changeover: u16, nearLower: u16, nearUpper: u16, farLower: u16, farUpper: u16)
    | SetUsOutput(mode: byte)
    | RobotCommand(payload: seq<byte>)
    | Ping
    | Passthrough
    | Unrecognised(code: byte)

  /** What one poll of the channel amounts to.  `Idle`: no command pending
      and no byte to read.  `Wait`: a command waits for more bytes; it stays
      pending with the robot-command length read so far.  `Run`: a command
      is complete.  `consumed` counts the bytes the poll took off the RX
      ring and `robotSize` is the length counter left behind. */
  datatype Poll =
    | Idle
    | Wait(command: byte, robotSize: int8, consumed: nat)
    | Run(cmd: HostCommand, robotSize: int8, consumed: nat)

  function Consumed(p: Poll): nat {
    if p.Idle? then 0 else p.consumed
  }

  function Shift(p: Poll, k: nat): (q: Poll)
    ensures Consumed(q) == if p.Idle? then 0 else Consumed(p) + k
  {
    match p
    case Idle => Idle
    case Wait(c, s, n) => Wait(c, s, n + k)
    case Run(cmd, s, n) => Run(cmd, s, n + k)
  }

  /** The commands that carry one data byte. */
  predicate OneByteCode(code: byte) {
    code == DEBUG_CMD_SET_DEBUG || code == DEBUG_CMD_SET_US_MODE
    || code == DEBUG_CMD_SET_US_SENSOR || code == DEBUG_CMD_SET_US_OUTPUT
  }

  function OneByteCommand(code: byte, data: byte): HostCommand
    requires OneByteCode(code)
  {
    if code == DEBUG_CMD_SET_DEBUG then SetDebug(data)
    else if code == DEBUG_CMD_SET_US_MODE then SetUsMode(data)
    else if code == DEBUG_CMD_SET_US_SENSOR then SetUsSensor(data)
    else SetUsOutput(data)
  }

  /** The robot-command payload once its length `size` is known: it waits
      until `size` bytes are buffered; a positive length takes them and
      leaves the counter at 0, a length of 0 or below (a length byte from
      0x80 up reads as negative) forwards nothing and the counter keeps its
      value. */
  function RobotPayload(size: int8, rx: seq<byte>): (p: Poll)
    ensures Consumed(p) <= |rx|
  {
    if |rx| < size then Wait(DEBUG_CMD_ROBOT_COMMAND, size, 0)
    else if size > 0 then Run(RobotCommand(rx[..size]), 0, size)
    else Run(RobotCommand([]), size, 0)
  }

  /** The poll with command `code` pending and `rx` buffered. */
  function ParsePending(code: byte, robotSize: int8, rx: seq<byte>): (p: Poll)
    ensures Consumed(p) <= |rx|
    ensures !p.Idle?
  {
    if OneByteCode(code) then
      if |rx| < 1 then Wait(code, robotSize, 0)
      else Run(OneByteCommand(code, rx[0]), robotSize, 1)
    else if code == DEBUG_CMD_SET_US_TRIGGERS then
      if |rx| < 10 then Wait(code, robotSize, 0)
      else Run(SetUsTriggers(Le16(rx[0], rx[1]), Le16(rx[2], rx[3]), Le16(rx[4], rx[5]),
                             Le16(rx[6], rx[7]), Le16(rx[8], rx[9])), robotSize, 10)
    else if code == DEBUG_CMD_ROBOT_COMMAND then
      if robotSize != 0 then RobotPayload(robotSize, rx)
      else if |rx| < 1 then Wait(code, 0, 0)
      else Shift(RobotPayload(ToInt8(rx[0]), rx[1..]), 1)
    else if code == DEBUG_CMD_PING then Run(Ping, robotSize, 0)
    else if code == DEBUG_CMD_ROBOT_PASSTHROUGH then Run(Passthrough, robotSize, 0)
    else Run(Unrecognised(code), robotSize, 0)
  }

  /** One poll: with no command pending the first byte is the command. */
  function ParseDebug(command: int, robotSize: int8, rx: seq<byte>): (p: Poll)
    requires command == DEBUG_CMD_NONE || 0 <= command < 0x100
    ensures Consumed(p) <= |rx|
  {
    if command == DEBUG_CMD_NONE then
      if rx == [] then Idle else Shift(ParsePending(rx[0], robotSize, rx[1..]), 1)
    else ParsePending(command, robotSize, rx)
  }

  // ---------------------------------------------------------------------
  // Properties of the parser

  /** A command short of data waits without taking its data: one byte for
      commands 0x01, 0x02, 0x03 and 0x05, ten for 0x04. */
  lemma PendingNeedsData(code: byte, robotSize: int8, rx: seq<byte>)
    requires OneByteCode(code) || code == DEBUG_CMD_SET_US_TRIGGERS
    ensures var need := if code == DEBUG_CMD_SET_US_TRIGGERS then 10 else 1;
            && (ParsePending(code, robotSize, rx).Wait? <==> |rx| < need)
            && (|rx| < need ==> ParsePending(code, robotSize, rx) == Wait(code, robotSize, 0))
            && (|rx| >= need ==> Consumed(ParsePending(code, robotSize, rx)) == need)
  {
  }

  /** Polling is resumable: a poll that leaves a command waiting, followed
      by a poll after more bytes arrived, acts like one poll over all the
      bytes. */
  lemma ParseResume(command: int, robotSize: int8, rx: seq<byte>, more: seq<byte>)
    requires command == DEBUG_CMD_NONE || 0 <= command < 0x100
    requires ParseDebug(command, robotSize, rx).Wait?
    ensures var w := ParseDebug(command, robotSize, rx);
            ParseDebug(command, robotSize, rx + more)
            == Shift(ParseDebug(w.command, w.robotSize, rx[w.consumed..] + more), w.consumed)
  {
    var w := ParseDebug(command, robotSize, rx);
    if command == DEBUG_CMD_NONE {
      assert (rx + more)[1..] == rx[1..] + more;
      PendingResume(rx[0], robotSize, rx[1..], more);
    } else {
      PendingResume(command, robotSize, rx, more);
    }
  }

  lemma PendingResume(code: byte, robotSize: int8, rx: seq<byte>, more: seq<byte>)
    requires ParsePending(code, robotSize, rx).Wait?
    ensures var w := ParsePending(code, robotSize, rx);
            ParsePending(code, robotSize, rx + more)
            == Shift(ParsePending(w.command, w.robotSize, rx[w.consumed..] + more), w.consumed)
  {
    var w := ParsePending(code, robotSize, rx);
    if code == DEBUG_CMD_ROBOT_COMMAND && robotSize == 0 && rx != [] {
      assert (rx + more)[1..] == rx[1..] + more;
      assert rx[1..] + more == rx[w.consumed..] + more;
    } else {
      assert rx[w.consumed..] == rx;
    }
  }

  /** A robot-command length byte from 0x80 up is read into the signed
      `char` counter as a negative number: nothing is forwarded, and since
      the counter is no longer 0 the length byte of every later robot
      command is never read. */
  lemma NegativeRobotLengthSticks(len: byte, rest: seq<byte>, size: int8, later: seq<byte>)
    requires len >= 0x80 && size < 0
    ensures ParseDebug(DEBUG_CMD_NONE, 0, [DEBUG_CMD_ROBOT_COMMAND, len] + rest)
         == Run(RobotCommand([]), len - 0x100, 2)
    ensures ParseDebug(DEBUG_CMD_NONE, size, [DEBUG_CMD_ROBOT_COMMAND] + later)
         == Run(RobotCommand([]), size, 1)
  {
    var rx := [DEBUG_CMD_ROBOT_COMMAND, len] + rest;
    assert rx[1..][1..] == rest;
  }

  // ---------------------------------------------------------------------
  // The PC side: encoding commands

  /** Commands the PC can send so that they read back as themselves. */
  predicate Encodable(cmd: HostCommand) {
    match cmd
    case RobotCommand(payload) => |payload| < 0x80
    case Unrecognised(code) => code == 0 || code > DEBUG_CMD_ROBOT_PASSTHROUGH
    case _ => true
  }

  /** The bytes the PC sends for a command; the trigger values go low byte
      first, as the firmware copies them into `unsigned short`s. */
  function Encode(cmd: HostCommand): (s: seq<byte>)
    requires Encodable(cmd)
    ensures 1 <= |s|
  {
    match cmd
    case SetDebug(flag) => [DEBUG_CMD_SET_DEBUG, flag]
    case SetUsMode(mode) => [DEBUG_CMD_SET_US_MODE, mode]
    case SetUsSensor(sensor) => [DEBUG_CMD_SET_US_SENSOR, sensor]
    case SetUsTriggers(c, nl, nu, fl, fu) =>
      [DEBUG_CMD_SET_US_TRIGGERS] + Le16Bytes(c) + Le16Bytes(nl) + Le16Bytes(nu) + Le16Bytes(fl) + Le16Bytes(fu)
    case SetUsOutput(mode) => [DEBUG_CMD_SET_US_OUTPUT, mode]
    case RobotCommand(payload) => [DEBUG_CMD_ROBOT_COMMAND, |payload|] + payload
    case Ping => [DEBUG_CMD_PING]
    case Passthrough => [DEBUG_CMD_ROBOT_PASSTHROUGH]
    case Unrecognised(code) => [code]
  }

  /** An encoded command, whatever follows it, is read back as itself in
      one poll, taking exactly its bytes and leaving the length counter at
      0. */
  lemma ParseEncode(cmd: HostCommand, rest: seq<byte>)
    requires Encodable(cmd)
    ensures ParseDebug(DEBUG_CMD_NONE, 0, Encode(cmd) + rest) == Run(cmd, 0, |Encode(cmd)|)
  {
    var rx := Encode(cmd) + rest;
    assert rx[0] == Encode(cmd)[0];
    match cmd
    case SetUsTriggers(c, nl, nu, fl, fu) =>
      var t := rx[1..];
      assert t[..10] == Le16Bytes(c) + Le16Bytes(nl) + Le16Bytes(nu) + Le16Bytes(fl) + Le16Bytes(fu);
    case RobotCommand(payload) =>
      assert rx[1..][1..] == payload + rest;
      assert (payload + rest)[..|payload|] == payload;
    case _ =>
  }

  /** Conversely, a poll from the idle state that completes a command and
      leaves the counter at 0 took exactly that command's encoding. */
  lemma EncodeParse(rx: seq<byte>, cmd: HostCommand, k: nat)
    requires ParseDebug(DEBUG_CMD_NONE, 0, rx) == Run(cmd, 0, k)
    ensures Encodable(cmd) && Encode(cmd) == rx[..k]
  {
    var t := rx[1..];
    if rx[0] == DEBUG_CMD_SET_US_TRIGGERS {
      Le16RoundTrip(t[0], t[1]);
      Le16RoundTrip(t[2], t[3]);
      Le16RoundTrip(t[4], t[5]);
      Le16RoundTrip(t[6], t[7]);
      Le16RoundTrip(t[8], t[9]);
      assert rx[..11] == [rx[0]] + [t[0], t[1]] + [t[2], t[3]] + [t[4], t[5]] + [t[6], t[7]] + [t[8], t[9]];
    } else if rx[0] == DEBUG_CMD_ROBOT_COMMAND {
      var size := ToInt8(t[0]);
      if size > 0 {
        assert rx[..k] == [rx[0], t[0]] + t[1..][..size];
      } else {
        assert rx[..k] == [rx[0], t[0]];
      }
    } else {
      assert rx[..k] == if OneByteCode(rx[0]) then [rx[0], t[0]] else [rx[0]];
    }
  }

  // ---------------------------------------------------------------------
  // Effects of a complete command

  /** The state the debug commands set: debug flag, array enable, output
      mode, the active sensor list (`numSensors`, `sensors`), and the
      array's selected sensor and trigger settings. */
  datatype Settings = Settings(debugEnabled: bool, usarrayEnabled: bool, outputMode: byte,
                               numSensors: byte, sensors: seq<byte>, sensorIndex: byte,
                               triggers: Triggers)

  const ALL_SENSORS: seq<byte> := [0, 1, 2, 3, 4, 5, 6, 7, 8, 9]

  /** What the firmware relies on: ten sensor slots, every listed sensor
      and the selected one name a row of the waveform table, and the output
      mode is one of the three. */
  predicate SettingsValid(s: Settings) {
    && |s.sensors| == US_SENSOR_COUNT
    && (forall i :: 0 <= i < |s.sensors| ==> s.sensors[i] < US_SENSOR_COUNT)
    && s.numSensors <= US_SENSOR_COUNT
    && s.sensorIndex < US_SENSOR_COUNT
    && s.outputMode <= US_OUTPUT_RANGE
  }

  function ApplyDebug(s: Settings, flag: byte): Settings {
    s.(debugEnabled := flag != 0)
  }

  /** Mode 0 disables the array, mode 1 lists the selected sensor alone,
      mode 2 lists all ten; any other value changes nothing. */
  function ApplyMode(s: Settings, mode: byte): Settings
    requires |s.sensors| == US_SENSOR_COUNT
  {
    if mode == 0 then s.(usarrayEnabled := false)
    else if mode == 1 then s.(numSensors := 1, sensors := s.sensors[0 := s.sensorIndex], usarrayEnabled := true)
    else if mode == 2 then s.(numSensors := 10, sensors := ALL_SENSORS, usarrayEnabled := true)
    else s
  }

  /** A sensor number selects the array's sensor, and is the listed one in
      single-sensor operation. */
  function ApplySensor(s: Settings, d: byte): Settings
    requires |s.sensors| == US_SENSOR_COUNT
  {
    if d < US_SENSOR_COUNT then
      s.(sensorIndex := d, sensors := if s.numSensors == 1 then s.sensors[0 := d] else s.sensors)
    else s
  }

  /** The trigger settings from the five received values; the far levels
      are stored crosswise. */
  function ApplyTriggers(s: Settings, c: u16, nl: u16, nu: u16, fl: u16, fu: u16): Settings {
    s.(triggers := Triggers(TimeToSampleIndex(c), VoltageToTriggerLevel(nl), VoltageToTriggerLevel(nu),
                            VoltageToTriggerLevel(fu), VoltageToTriggerLevel(fl)))
  }

  function ApplyOutput(s: Settings, mode: byte): Settings {
    if mode <= US_OUTPUT_RANGE then s.(outputMode := mode) else s
  }

  /** No command can break the settings invariant. */
  lemma ExecuteKeepsValid(s: Settings, cmd: HostCommand)
    requires SettingsValid(s)
    ensures SettingsValid(Execute(s, cmd).0)
  {
    if cmd.SetUsMode? && cmd.mode == 2 {
      assert forall i :: 0 <= i < 10 ==> ALL_SENSORS[i] == i;
    }
  }

  /** `debugPrint`: the message behind "#DBG: ", then a '\n' if asked
      for, and nothing at all when debugging is off. */
  function DebugText(enabled: bool, msg: string, newLine: bool): seq<Piece> {
    if enabled then [Text("#DBG: "), Text(msg)] + (if newLine then [Char(NEWLINE)] else []) else []
  }

  /** On the wire a debug line is "#DBG: ", the message up to any NUL in
      it, and the '\n' if asked for. */
  lemma DebugTextSent(msg: string, newLine: bool)
    ensures Render(DebugText(true, msg, newLine))
         == Ascii("#DBG: ") + Literal(msg) + (if newLine then [NEWLINE] else [])
  {
    LiteralWhole("#DBG: ");
    var tail := if newLine then [Char(NEWLINE)] else [];
    RenderAppend([Text("#DBG: "), Text(msg)], tail);
    RenderPair(Text("#DBG: "), Text(msg));
    assert Render(tail) == if newLine then [NEWLINE] else [] by {
      if newLine {
        assert Render(tail) == [NEWLINE] + Render([]);
      }
    }
  }

  function ModeText(mode: byte): string {
    if mode == 0 then "US MODE - DISABLED"
    else if mode == 1 then "US MODE - SINGLE"
    else if mode == 2 then "US MODE - COMPLETE"
    else "US MODE - NOT RECOGNISED!"
  }

  function OutputText(mode: byte): string {
    if mode == 0 then "US OUTPUT - DISABLED"
    else if mode == 1 then "US OUTPUT - WAVEFORM"
    else if mode == 2 then "US OUTPUT - RANGE"
    else "US OUTPUT - NOT RECOGNISED!"
  }

  /** The notice for a command code without data bytes. */
  function NoticeText(code: byte): string {
    if code == DEBUG_CMD_PING then "PING!"
    else if code == DEBUG_CMD_ROBOT_PASSTHROUGH then "ENTERING 3PI PASSTHROUGH MODE..."
    else "ERROR CMD NOT RECOGNISED!"
  }

  /** A label and a value printed unsigned. */
  function Field(name: string, v: u16): seq<Piece> {
    [Text(name), Int(v, false)]
  }

  /** The report of the five trigger values. */
  function TriggerText(c: u16, nl: u16, nu: u16, fl: u16, fu: u16): seq<Piece> {
    DebugText(true, "US TRIGGER SET - CHANGEOVER: ", false) + [Int(c, false)]
    + Field(", NL: ", nl) + Field(", NU: ", nu) + Field(", FL: ", fl) + Field(", FU: ", fu) + [Char(NEWLINE)]
  }

  /** What a complete command does to settings `s`: the settings after it,
      and what it prints on the PC channel. */
  function Execute(s: Settings, cmd: HostCommand): (Settings, seq<Piece>)
    requires |s.sensors| == US_SENSOR_COUNT
  {
    match cmd
    case SetDebug(flag) => (ApplyDebug(s, flag), ReplyDebug(s, flag))
    case SetUsMode(mode) => (ApplyMode(s, mode), DebugText(s.debugEnabled, ModeText(mode), true))
    case SetUsSensor(d) => (ApplySensor(s, d), ReplySensor(s, d))
    case SetUsTriggers(c, nl, nu, fl, fu) =>
      (ApplyTriggers(s, c, nl, nu, fl, fu), ReplyTriggers(s, c, nl, nu, fl, fu))
    case SetUsOutput(mode) => (ApplyOutput(s, mode), DebugText(s.debugEnabled, OutputText(mode), true))
    case RobotCommand(_) => (s, DebugText(s.debugEnabled, "ROBOT CMD ISSUED", true))
    case Ping => (s, DebugText(s.debugEnabled, "PING!", true))
    case Passthrough => (s, DebugText(s.debugEnabled, "ENTERING 3PI PASSTHROUGH MODE...", true))
    case Unrecognised(_) => (s, DebugText(s.debugEnabled, "ERROR CMD NOT RECOGNISED!", true))
  }

  /** "DEBUG ENABLED" is printed after the flag is set, "DEBUG DISABLED"
      before it is cleared. */
  function ReplyDebug(s: Settings, flag: byte): seq<Piece> {
    if flag != 0 then DebugText(true, "DEBUG ENABLED", true)
    else DebugText(s.debugEnabled, "DEBUG DISABLED", true)
  }

  /** The selected sensor is echoed as the digit `'0' + d`. */
  function ReplySensor(s: Settings, d: byte): seq<Piece> {
    if d < US_SENSOR_COUNT then
      if s.debugEnabled then DebugText(true, "US SENSOR SELECT - ", false) + [Char(ZERO + d), Char(NEWLINE)] else []
    else DebugText(s.debugEnabled, "US SENSOR SELECT - NOT RECOGNISED!", true)
  }

  function ReplyTriggers(s: Settings, c: u16, nl: u16, nu: u16, fl: u16, fu: u16): seq<Piece> {
    if s.debugEnabled then TriggerText(c, nl, nu, fl, fu) else []
  }

  /** With debugging off the channel stays silent, except for the
      confirmation that debugging has just been switched on. */
  lemma QuietUnlessDebugging(s: Settings, cmd: HostCommand)
    requires |s.sensors| == US_SENSOR_COUNT
    requires !s.debugEnabled && !(cmd.SetDebug? && cmd.flag != 0)
    ensures Execute(s, cmd).1 == []
  {
  }

  /** The bytes a complete command forwards to the robot. */
  function RobotBytes(cmd: HostCommand): seq<byte> {
    if cmd.RobotCommand? then cmd.payload else []
  }

  /** A robot command forwards its payload unchanged and in order. */
  lemma RobotCommandForwards(payload: seq<byte>, rest: seq<byte>)
    requires 0 < |payload| < 0x80
    ensures var p := ParseDebug(DEBUG_CMD_NONE, 0, [DEBUG_CMD_ROBOT_COMMAND, |payload|] + payload + rest);
            p.Run? && RobotBytes(p.cmd) == payload && p.robotSize == 0 && p.consumed == 2 + |payload|
  {
    ParseEncode(RobotCommand(payload), rest);
  }
}
