/** The FSL words exchanged with the ultrasound receiver core
    (`us_receiver.c`).  A command word carries a 4-bit command code in
    bits 0-3 and a payload in bits 4-31; a reply word carries a status bit,
    a 3-bit response type and 28 bits of data.  `putfsl`/`getfsl` are not
    modelled: the functions below produce the word that is put and take the
    word that is got. */
module UsReceiver {

  // Command codes
  const US_COMM_ECHO: bv8 := 0x0
  const US_COMM_TEMP: bv8 := 0x1
  const US_COMM_SAMPLE: bv8 := 0x2
  const US_COMM_INIT: bv8 := 0x3
  const US_COMM_RESET: bv8 := 0xF

  // Response types
  const US_RESP_ECHO: bv8 := 0x0
  const US_RESP_TEMP: bv8 := 0x1
  const US_RESP_SAMPLE: bv8 := 0x2
  const US_RESP_NONE: bv8 := 0x3
  const US_RESP_UNKNOWN: bv8 := 0x7

  // Statuses
  const US_STATUS_OK: bv8 := 0x0
  const US_STATUS_ERROR: bv8 := 0x1

  /** The word `testUSFSL` echoes through the core. */
  const FSL_TEST_PATTERN: bv32 := 0xABCDEF0

  /** `sendUSCommand`: the word put on the bus.  The command code occupies
      bits 0-3 and the low 28 bits of `data` bits 4-31; the top four bits
      of `data` are shifted out. */
  function SendUSCommand(command: bv8, data: bv32): (w: bv32)
    ensures w & 0xF == (command & 0xF) as bv32
    ensures w >> 4 == data & 0x0FFF_FFFF
  {
    (data << 4) | ((command as bv32) & 0xF)
  }

  /** The payload of `sendUSSampleRequest`: sensor in bits 0-3, the low
      9 bits of the count in bits 4-12, bit 13 clear, the low 12 bits of the
      period in bits 14-25. */
  function SampleRequestPayload(sensor: bv8, count: bv16, period: bv16): (p: bv32)
    ensures p & 0xF == (sensor & 0xF) as bv32
    ensures (p >> 4) & 0x1FF == (count & 0x1FF) as bv32
    ensures (p >> 13) & 1 == 0
    ensures p >> 14 == (period & 0xFFF) as bv32
  {
    (((period as bv32) & 0xFFF) << 14) | (((count as bv32) & 0x1FF) << 4) | ((sensor as bv32) & 0xF)
  }

  /** `sendUSSampleRequest`: the sample command with its packed payload.
      Nothing of the payload is lost by the command's shift. */
  function SendUSSampleRequest(sensor: bv8, count: bv16, period: bv16): (w: bv32)
    ensures w & 0xF == US_COMM_SAMPLE as bv32
    ensures (w >> 4) & 0xF == (sensor & 0xF) as bv32
    ensures (w >> 8) & 0x1FF == (count & 0x1FF) as bv32
    ensures (w >> 17) & 1 == 0
    ensures w >> 18 == (period & 0xFFF) as bv32
  {
    SendUSCommand(US_COMM_SAMPLE, SampleRequestPayload(sensor, count, period))
  }

  /** The request count is masked to 9 bits: the 5000 samples the scan asks
      for reach the receiver as 392. */
  lemma SampleCountTruncated(sensor: bv8, period: bv16)
    ensures (SendUSSampleRequest(sensor, 5000, period) >> 8) & 0x1FF == 392
  {
  }

  /** `sendUSEcho`: the echo command is the only one with a payload. */
  function SendUSEcho(data: bv32): (w: bv32)
    ensures w & 0xF == US_COMM_ECHO as bv32 && w >> 4 == data & 0x0FFF_FFFF
  {
    SendUSCommand(US_COMM_ECHO, data)
  }

  /** `sendUSTempRequest`: code 0x1, empty payload. */
  function SendUSTempRequest(): (w: bv32)
    ensures w & 0xF == US_COMM_TEMP as bv32 && w >> 4 == 0
  {
    SendUSCommand(US_COMM_TEMP, 0)
  }

  /** `sendUSInit`: code 0x3, empty payload. */
  function SendUSInit(): (w: bv32)
    ensures w & 0xF == US_COMM_INIT as bv32 && w >> 4 == 0
  {
    SendUSCommand(US_COMM_INIT, 0)
  }

  /** `sendUSReset`: code 0xF, empty payload. */
  function SendUSReset(): (w: bv32)
    ensures w & 0xF == US_COMM_RESET as bv32 && w >> 4 == 0
  {
    SendUSCommand(US_COMM_RESET, 0)
  }

  /** The three values `readUSData` stores through its out-pointers. */
  datatype Reply = Reply(status: bv8, kind: bv8, data: bv32)

  /** `readUSData`: split a reply word into status (bit 0), type (bits 1-3)
      and data (bits 4-31). */
  function ReadUSData(input: bv32): Reply {
    Reply((input & 0x1) as bv8, ((input >> 1) & 0x7) as bv8, input >> 4)
  }

  /** The fields `readUSData` returns are within their widths, and together
      they give back the word read: no bit of a reply is dropped. */
  lemma ReadUSDataFields(input: bv32)
    ensures var r := ReadUSData(input);
            r.status < 2 && r.kind < 8 && r.data < 0x1000_0000 && ReplyWord(r) == input
  {
  }

  /** The word the receiver core sends for a reply: the layout `readUSData`
      takes apart. */
  function ReplyWord(r: Reply): bv32 {
    ((r.data as bv32) << 4) | (((r.kind & 0x7) as bv32) << 1) | ((r.status & 0x1) as bv32)
  }

  /** Decoding a well-formed reply word gives back its three fields. */
  lemma ReadUSDataRoundTrip(status: bv8, kind: bv8, data: bv32)
    requires status < 2 && kind < 8 && data < 0x1000_0000
    ensures ReadUSData(ReplyWord(Reply(status, kind, data))) == Reply(status, kind, data)
  {
  }

  /** `testUSFSL` given the word read back after sending the echo: success
      exactly when the reply is an OK echo carrying the test pattern, which
      is exactly when the core returned the sent word unchanged. */
  function TestUSFSL(reply: bv32): (ok: bool)
    ensures ok <==> reply == SendUSEcho(FSL_TEST_PATTERN)
    ensures ok <==> reply == 0xABCDEF00
  {
    var r := ReadUSData(reply);
    r.status == US_STATUS_OK && r.kind == US_RESP_ECHO && r.data == FSL_TEST_PATTERN
  }
}
