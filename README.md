# Ultrasound ranging firmware, modelled in Dafny

This project models the firmware of the RTSYork ultrasound robot. The main
part is the MicroBlaze controller on the FPGA, which:

- polls commands from the PC over a serial line;
- forwards commands to the Pololu 3pi mobile platform;
- strips the platform's debug lines out of its response stream and forwards them to the PC;
- fires the transducers of a ten-sensor array;
- stores the echo waveforms and turns each into a range;
- streams waveforms or ranges back to the PC in a binary frame.

A small sampling state machine for an mbed prototype is modelled as well.

The modules follow the firmware's source files:

| module | file | models |
|---|---|---|
| `Bytes` | `bytes.dfy` | the C integer types, signed `char`/`short` conversions, truncating division, little-endian pairs |
| `Uart` | `uart.dfy` | `uart.c`: class `UartBuff` holds the two 128-byte rings of a channel, with `uart_getchar`, `uart_putchar`, the print routines and the interrupt handler; also decimal text and C strings |
| `UsReceiver` | `us_receiver.dfy` | `us_receiver.c`: the FSL command and reply words of the receiver core |
| `PulseGen` | `pulsegen.dfy` | `pulsegen.c`: the pulse generator's register word |
| `MobPlat` | `mobplat.dfy` | `mobplat.c`: the platform commands, their encoding and the helpers that queue them |
| `UsArray` | `usarray.dfy` | `usarray.c`: the conversion macros, echo extraction, and class `UsArray` with the scan and the range update |
| `HostProtocol` | `host_protocol.dfy` | the PC command protocol of `ProcessSerialDebug` as pure functions (parse, encode, effect of each command) |
| `RobotLink` | `robot_link.dfy` | `ProcessSerial3PI` as pure functions (debug-line stripping, response switch) |
| `Telemetry` | `telemetry.dfy` | the frames `ProcessUSArray` sends |
| `Ultrasound` | `ultrasound.dfy` | `ultrasound.c`: class `Controller` holds the globals, with `ProcessSerialDebug`, `ProcessSerial3PI`, `ProcessUSArray` and `debugPrint` as methods, each proved against the pure modules |
| `Mbed` | `mbed.dfy` | `ultrasound_mbed/ultrasound.c`: class `Sampler` with the two timer interrupt handlers and the start of a cycle, and `Cycle`, one whole sampling cycle |

How the model represents the hardware and the output:

- **Hardware inputs.** The hardware FIFOs, status bits, FSL reply words and ADC readings are parameters.
- **Words sent.** Words sent on the FSL bus or written to the pulse generator are returned as values.
- **Serial output.** Each channel carries a ghost record `txSent` of every byte its interrupt handler has handed to the UART. `TxStream()` is that record followed by the bytes still queued. Every print is specified by the bytes it appends to `TxStream()`.
- **Print calls.** A sequence of print calls is described as a list of `Piece`s and turned into bytes by `Uart.Render`.
- **Blocking puts.** `while (uart_putchar(...) == -1);` is modelled by `PutCharBlocking`. On a full ring it lets the interrupt handler move one byte to the hardware FIFO, then retries.

Behaviours of the code that the model reproduces as written:

- **Signed `char` bytes.** `char` is signed on this target. As a result:
  - a robot-command length byte of 0x80 or more becomes a negative count that sticks (`HostProtocol.NegativeRobotLengthSticks`);
  - sensor numbers above 0x7F are rejected as negative;
  - the button byte is echoed as `'0' + data` modulo 256.
- **`uart_print_int`.** A negative value printed unsigned produces no text, and `INT_MIN` prints as a lone '-' (`Uart.IntTextMeaning`). A negative heading in a position report therefore vanishes (`RobotLink.NegativeThetaVanishes`).
- **Far trigger levels stored crosswise.** `usarray_set_triggers` stores `farLower` as the far upper level and `farUpper` as the far lower level. With the far levels sent in order, every sample after the changeover then triggers (`UsArray.FarBandCrosswise`).
- **Scan range.** `ProcessUSArray` passes the sensor list to `usarray_scan` and `usarray_update_ranges`, but both ignore their arguments. They cover the positions given by the array's own mode and selected sensor. The PC's `SET_US_MODE` command changes only the list that is reported; `usarray_set_mode` is never called. So the frame reports the rows and ranges of listed sensors, scanned or not.
- **Narrow fields truncated.** The receiver's sample count is masked to 9 bits, so 5000 samples are requested as 392 (`UsReceiver.SampleCountTruncated`). Field overlaps in the pulse register are not masked (`PulseGen.AddressOverlapsCycleCount`).
- **Conversion macros wrap.** The conversion macros wrap at 16 bits (`UsArray.VoltageToTriggerLevelWraps`, `UsArray.SampleIndexToTimeWraps`).
- **'#' after a debug line.** A '#' right after a debug line's '\n' is read as a response and dropped (`RobotLink.HashAfterLineDropped`).
- **Range frame tags.** In the range frame each item is tagged with its place in the list, not its sensor number. Items carry only 12 bits of value, so a range of -1 arrives as 4095 (`Telemetry.PairRoundTrip`).

## Model

Source paths are relative to the repository root.

| member | source | states |
|---|---|---|
| Bytes.ToInt8 | ultrasound_fpga/workspace/ultrasound/src/ultrasound.c:312 | a byte read into a signed `char` keeps its value below 0x80, is negative from 0x80, and is congruent to the byte modulo 256 |
| Bytes.ToInt16 | ultrasound_fpga/workspace/ultrasound/src/ultrasound.c:434-436 | the `(short)` conversion yields the `short` congruent to the value modulo 2^16 |
| Bytes.ToInt16InRange | ultrasound_fpga/workspace/ultrasound/src/ultrasound.c:434-436 | a value that fits a `short` is unchanged by the conversion |
| Bytes.ToInt32 | ultrasound_fpga/workspace/ultrasound/src/uart.c:154 | conversion to 32-bit `int` yields the value congruent modulo 2^32 |
| Bytes.ToInt32InRange | ultrasound_fpga/workspace/ultrasound/src/usarray.c:95 | a value that fits an `int` is unchanged by the conversion |
| Bytes.ToU32 | ultrasound_fpga/workspace/ultrasound/src/usarray.c:129 | storing into `unsigned int` yields the value congruent modulo 2^32 |
| Bytes.CDiv | ultrasound_fpga/workspace/ultrasound/src/usarray.c:129 | C division truncates toward zero: the quotient is bounded from the zero side for both signs of the dividend |
| Bytes.Le16Bytes | ultrasound_fpga/workspace/ultrasound/src/mobplat.c:33-36 | the two bytes of a 16-bit value in memory order read back, low byte first, as that value |
| Bytes.Le16RoundTrip | ultrasound_fpga/workspace/ultrasound/src/ultrasound.c:236-239 | two bytes read as a little-endian `unsigned short` and split again give the same two bytes |
| Bytes.Ascii | ultrasound_fpga/workspace/ultrasound/src/uart.c:133-145 | a literal's stored bytes: one per character, each its character code modulo 256 |
| PulseGen.PulseWord | ultrasound_fpga/Ultrasound/drivers/pulsegen_v1_00_a/src/pulsegen.c:14-16 | for in-range fields, the register word holds the address in bits 0-3, the cycle count in bits 4-15 and the enable flag at bit 16 |
| PulseGen.AddressOverlapsCycleCount | ultrasound_fpga/Ultrasound/drivers/pulsegen_v1_00_a/src/pulsegen.c:15 | for every input, the address bits above the low four are ORed into the cycle-count field: the address is not masked |
| PulseGen.CycleCountOverlapsEnable | ultrasound_fpga/Ultrasound/drivers/pulsegen_v1_00_a/src/pulsegen.c:15 | for every input, the cycle-count bits above the low twelve are ORed into the enable field: the cycle count is not masked |
| PulseGen.ScanBurstWord | ultrasound_fpga/workspace/ultrasound/src/usarray.c:110 | the burst a scan starts at an address up to 11 is the word 0x10080 with the address in the low bits |
| UsReceiver.SendUSCommand | ultrasound_fpga/Ultrasound/drivers/us_receiver_v1_00_a/src/us_receiver.c:47-50 | the word put carries the command's low nibble in bits 0-3 and the low 28 bits of the data above it |
| UsReceiver.SampleRequestPayload | ultrasound_fpga/Ultrasound/drivers/us_receiver_v1_00_a/src/us_receiver.c:38-39 | the payload packs sensor (4 bits), count (9 bits), a clear bit 13 and period (12 bits) |
| UsReceiver.SendUSSampleRequest | ultrasound_fpga/Ultrasound/drivers/us_receiver_v1_00_a/src/us_receiver.c:38-41 | the request word carries command 2 and every payload field in place; nothing of the payload is shifted out |
| UsReceiver.SampleCountTruncated | ultrasound_fpga/workspace/ultrasound/src/usarray.c:113 | the 5000-sample request reaches the receiver with count 392 |
| UsReceiver.SendUSEcho | ultrasound_fpga/Ultrasound/drivers/us_receiver_v1_00_a/src/us_receiver.c:10-12 | the echo word is code 0 with the data's low 28 bits |
| UsReceiver.SendUSReset | ultrasound_fpga/Ultrasound/drivers/us_receiver_v1_00_a/src/us_receiver.c:17-19 | the reset word is code 0xF with an empty payload |
| UsReceiver.SendUSInit | ultrasound_fpga/Ultrasound/drivers/us_receiver_v1_00_a/src/us_receiver.c:24-26 | the init word is code 3 with an empty payload |
| UsReceiver.SendUSTempRequest | ultrasound_fpga/Ultrasound/drivers/us_receiver_v1_00_a/src/us_receiver.c:31-33 | the temperature request is code 1 with an empty payload |
| UsReceiver.ReadUSDataFields | ultrasound_fpga/Ultrasound/drivers/us_receiver_v1_00_a/src/us_receiver.c:55-62 | the status, type and data fields are within 1, 3 and 28 bits, and together rebuild the word read |
| UsReceiver.ReadUSDataRoundTrip | ultrasound_fpga/Ultrasound/drivers/us_receiver_v1_00_a/src/us_receiver.c:55-62 | decoding a reply word built from in-range fields returns those fields |
| UsReceiver.TestUSFSL | ultrasound_fpga/Ultrasound/drivers/us_receiver_v1_00_a/src/us_receiver.c:67-80 | the test passes exactly when the core echoes the sent word unchanged, i.e. the reply is 0xABCDEF00 |
| MobPlat.ToU16 | ultrasound_fpga/workspace/ultrasound/src/mobplat.c:33 | a coordinate stored as `unsigned short` reads back as the same `short` |
| MobPlat.Encode | ultrasound_fpga/workspace/ultrasound/src/mobplat.c:6-47 | every command's bytes decode, as the platform reads them, to that command |
| MobPlat.DecodeEncode | ultrasound_fpga/workspace/ultrasound/src/mobplat.c:6-47 | every message the platform accepts is the encoding of the command it decodes to, so no two commands share bytes |
| MobPlat.CoordinateBytes | ultrasound_fpga/workspace/ultrasound/src/mobplat.c:33-36 | two coordinate bytes read as a `short` and stored back are the same two bytes |
| MobPlat.MpSetDebug | ultrasound_fpga/workspace/ultrasound/src/mobplat.c:6-12 | the robot's stream gains exactly the SET_DEBUG code and the state, whether or not the ring has room: a put on a full ring waits for the interrupt handler; the overflow flag is set exactly when fewer than 2 slots were free, and with enough room the bytes simply join the ring |
| MobPlat.MpSetMode | ultrasound_fpga/workspace/ultrasound/src/mobplat.c:14-18 | the robot's stream gains exactly the SET_MODE code and the mode, whether or not the ring has room: a put on a full ring waits for the interrupt handler; the overflow flag is set exactly when fewer than 2 slots were free, and with enough room the bytes simply join the ring |
| MobPlat.MpSetMotorSpeed | ultrasound_fpga/workspace/ultrasound/src/mobplat.c:20-26 | the robot's stream gains exactly the SET_MOTOR_SPD code and the three speed bytes, in order, whether or not the ring has room: a put on a full ring waits for the interrupt handler; the overflow flag is set exactly when fewer than 4 slots were free, and with enough room the bytes simply join the ring |
| MobPlat.MpSetPos | ultrasound_fpga/workspace/ultrasound/src/mobplat.c:28-37 | the robot's stream gains exactly the SET_POS code and the six little-endian coordinate bytes, i.e. the encoding of SET_POS, whether or not the ring has room: a put on a full ring waits for the interrupt handler; the overflow flag is set exactly when fewer than 7 slots were free, and with enough room the bytes simply join the ring |
| MobPlat.MpGetPos | ultrasound_fpga/workspace/ultrasound/src/mobplat.c:39-42 | the robot's stream gains exactly the GET_POS code, whether or not the ring has room: a put on a full ring waits for the interrupt handler; the overflow flag is set exactly when the ring was full, and with enough room the bytes simply join the ring |
| MobPlat.MpBeep | ultrasound_fpga/workspace/ultrasound/src/mobplat.c:44-47 | the robot's stream gains exactly the BEEP code, whether or not the ring has room: a put on a full ring waits for the interrupt handler; the overflow flag is set exactly when the ring was full, and with enough room the bytes simply join the ring |
| Uart.Window | ultrasound_fpga/workspace/ultrasound/src/uart.c:77-82 | the bytes queued in a ring, `count` of them from the read index with wrap-around |
| Uart.WindowPush | ultrasound_fpga/workspace/ultrasound/src/uart.c:94-98 | storing at the slot after the last queued byte appends that byte to the queue |
| Uart.WindowPop | ultrasound_fpga/workspace/ultrasound/src/uart.c:77-82 | the byte at the read index is the queue's head, and advancing the index drops it |
| Uart.NulIndex | ultrasound_fpga/workspace/ultrasound/src/uart.c:135 | the index of the first NUL, or the length when there is none |
| Uart.CString | ultrasound_fpga/workspace/ultrasound/src/uart.c:133-145 | `uart_print` sends the longest NUL-free prefix of the buffer |
| Uart.LiteralIsCString | ultrasound_fpga/workspace/ultrasound/src/uart.c:133-145 | printing a literal sends the C string of its stored characters, terminator included |
| Uart.LiteralWhole | ultrasound_fpga/workspace/ultrasound/src/uart.c:133-145 | a literal without NUL characters is sent whole |
| Uart.Digits | ultrasound_fpga/workspace/ultrasound/src/uart.c:162-172 | a positive number's text is a non-empty string of decimal digits |
| Uart.DigitsNoLeadingZero | ultrasound_fpga/workspace/ultrasound/src/uart.c:162-172 | the generated digits never start with '0' |
| Uart.DigitsRoundTrip | ultrasound_fpga/workspace/ultrasound/src/uart.c:162-172 | the decimal value of the generated digits is the number |
| Uart.DigitsLength | ultrasound_fpga/workspace/ultrasound/src/uart.c:163 | a number below 10^k has at most k digits |
| Uart.IntTextMeaning | ultrasound_fpga/workspace/ultrasound/src/uart.c:147-180 | `uart_print_int` prints "0" for zero and the digits of the value without a leading zero; a signed negative gets a '-' and its magnitude's digits. A negative printed unsigned prints nothing, and `INT_MIN` prints only '-' |
| Uart.IntTextLength | ultrasound_fpga/workspace/ultrasound/src/uart.c:163 | the digit text never exceeds 11 bytes, so the 12-byte buffer suffices |
| Uart.UartBuff.constructor | ultrasound_fpga/workspace/ultrasound/src/uart.c:12-20 | both rings are 128 bytes and empty, with nothing sent and no overflow |
| Uart.UartBuff.GetChar | ultrasound_fpga/workspace/ultrasound/src/uart.c:73-90 | with data, returns the oldest received byte and removes exactly it; with none, returns -1 and changes nothing |
| Uart.UartBuff.PutChar | ultrasound_fpga/workspace/ultrasound/src/uart.c:92-106 | with room, appends the byte to the TX queue and returns 1; when full, returns -1, sets the sticky overflow flag and leaves the queue alone |
| Uart.UartBuff.PutCharBlocking | ultrasound_fpga/workspace/ultrasound/src/uart.c:137 | the retry loop: the byte joins the transmitted stream after everything queued before it, and overflow is flagged exactly when the ring was full |
| Uart.UartBuff.GetTxCount | ultrasound_fpga/workspace/ultrasound/src/uart.c:123-126 | the number of queued TX bytes |
| Uart.UartBuff.GetRxCount | ultrasound_fpga/workspace/ultrasound/src/uart.c:128-131 | the number of unread RX bytes |
| Uart.UartBuff.Print | ultrasound_fpga/workspace/ultrasound/src/uart.c:133-145 | the stream gains the C string of the argument, i.e. its bytes up to the first NUL, whether or not the ring has room; the ring fills and then stays full, and the overflow flag is set exactly when fewer slots were free than bytes printed |
| Uart.UartBuff.PrintInt | ultrasound_fpga/workspace/ultrasound/src/uart.c:147-180 | the stream gains `IntText(val, isSigned)`, whose meaning `IntTextMeaning` states |
| Uart.UartBuff.PrintSigned | ultrasound_fpga/workspace/ultrasound/src/uart.c:149-155 | the stream gains '-' and then the text of the negated value |
| Uart.UartBuff.PrintBody | ultrasound_fpga/workspace/ultrasound/src/uart.c:157-176 | the stream gains '0' for zero, the digits for a positive value and nothing for a negative one |
| Uart.UartBuff.PrintDigits | ultrasound_fpga/workspace/ultrasound/src/uart.c:161-176 | the stream gains exactly the decimal digits of the positive value |
| Uart.UartBuff.DigitsBackwards | ultrasound_fpga/workspace/ultrasound/src/uart.c:162-172 | filling the 12-byte buffer from its end leaves the digits, most significant first, before the NUL at index 11 |
| Uart.UartBuff.ReceiveFromFifo | ultrasound_fpga/workspace/ultrasound/src/uart.c:37-55 | as many FIFO bytes as fit are appended to the RX queue in order, the rest are left, and overflow is set only when bytes remain with the ring full and the FIFO reported full |
| Uart.UartBuff.StoreNext | ultrasound_fpga/workspace/ultrasound/src/uart.c:39-47 | one loop step: after `k` FIFO bytes stored, byte `k` is stored behind them |
| Uart.UartBuff.StoreOne | ultrasound_fpga/workspace/ultrasound/src/uart.c:39-47 | a byte stored at the write index is appended to the RX queue |
| Uart.UartBuff.TransmitToFifo | ultrasound_fpga/workspace/ultrasound/src/uart.c:57-70 | when the FIFO is empty, the oldest queued bytes, as many as fit, leave in order; the transmitted stream as a whole is unchanged |
| Uart.UartBuff.SendOne | ultrasound_fpga/workspace/ultrasound/src/uart.c:62-65 | the head of the TX queue moves to the sent record |
| Uart.UartBuff.InterruptHandler | ultrasound_fpga/workspace/ultrasound/src/uart.c:29-71 | the RX pass, then the TX pass, with the effects stated above, and the TX overflow flag untouched |
| Uart.RxLoopNeverExits | ultrasound_fpga/workspace/ultrasound/src/uart.c:37-55 | the RX loop as written (`RxLoopAsWritten`), with the ring full and a byte in the FIFO, has read nothing and still holds its condition after any number of passes |
| Uart.RxLoopWithRoom | ultrasound_fpga/workspace/ultrasound/src/uart.c:37-55 | when the FIFO's bytes all fit, the loop as written ends with all of them in the ring and the flag unchanged, as the bounded pass does |
| UsArray.VoltageToTriggerLevel | ultrasound_fpga/workspace/ultrasound/src/usarray.c:8 | up to 21140 hundredths of a volt, the ADC code is the voltage times 1023/330, rounded down |
| UsArray.VoltageToTriggerLevelMonotone | ultrasound_fpga/workspace/ultrasound/src/usarray.c:8 | the conversion preserves the order of voltages up to 21140 |
| UsArray.VoltageToTriggerLevelWraps | ultrasound_fpga/workspace/ultrasound/src/usarray.c:8 | above that the `unsigned short` cast wraps: 21140 gives 65534, 21141 gives 1 |
| UsArray.SampleIndexToTime | ultrasound_fpga/workspace/ultrasound/src/usarray.c:9 | up to sample 2298, the time is the end of the sample in microseconds, at 28.5 us per sample, rounded down |
| UsArray.SampleIndexToTimeWraps | ultrasound_fpga/workspace/ultrasound/src/usarray.c:9 | from sample 2299 the time wraps at 16 bits |
| UsArray.TimeToSampleIndex | ultrasound_fpga/workspace/ultrasound/src/usarray.c:10 | a time of at least 29 us falls in the returned sample; below that the `- 1` wraps to 65535 |
| UsArray.SampleIndexRoundTrip | ultrasound_fpga/workspace/ultrasound/src/usarray.c:9-10 | index to time and back returns `i` when `i` is odd, and `i - 1` (65535 for `i = 0`) when `i` is even |
| UsArray.SpeedOfSound | ultrasound_fpga/workspace/ultrasound/src/usarray.c:129 | the truncated quotient of 3313000 + 606 T by 10000, between 331 and 391 for 0 to 100 degrees |
| UsArray.RangeExample | ultrasound_fpga/workspace/ultrasound/src/usarray.c:129-158 | at 21.0 degrees the speed is 344, and an echo at sample 100 reads 475 mm |
| UsArray.MeasuredTemperatureScale | ultrasound_fpga/workspace/ultrasound/src/usarray.c:95 | for ADC results up to 26214, where the result still fits a `short`, the temperature in tenths of a degree is 5/4 of the result, rounded down |
| UsArray.FirstTrigger | ultrasound_fpga/workspace/ultrasound/src/usarray.c:145-162 | the first sample from `from` outside its band (near band up to the changeover, far band after), or none when no sample is |
| UsArray.FarBandCrosswise | ultrasound_fpga/workspace/ultrasound/src/usarray.c:70-77 | with the far levels stored crosswise and sent in order, every sample after the changeover triggers |
| UsArray.RangeReadingMeaning | ultrasound_fpga/workspace/ultrasound/src/usarray.c:140-163 | the reading is -1 when no sample triggers, and otherwise the range of the first triggering sample |
| UsArray.ScanPulsesWords | ultrasound_fpga/workspace/ultrasound/src/usarray.c:108-110 | the burst for each covered position is the enabled eight-cycle pulse at that position's mapped address |
| UsArray.ScanRequestWord | ultrasound_fpga/workspace/ultrasound/src/usarray.c:113 | the sample request for an address is command 2, the address, count 392 and period 1250 |
| UsArray.ScanRequestsWords | ultrasound_fpga/workspace/ultrasound/src/usarray.c:108-113 | every request of a scan is that word for the position's mapped address |
| UsArray.UsArray.constructor | ultrasound_fpga/workspace/ultrasound/src/usarray.c:14-27 | single mode, sensor 0, temperature 21.0 degrees, triggers converted from the defaults, zeroed tables |
| UsArray.UsArray.Init | ultrasound_fpga/workspace/ultrasound/src/usarray.c:30-48 | every range becomes -1, the init word is sent, and success is an OK reply of type none |
| UsArray.UsArray.SetMode | ultrasound_fpga/workspace/ultrasound/src/usarray.c:50-53 | the mode becomes the new mode |
| UsArray.UsArray.GetMode | ultrasound_fpga/workspace/ultrasound/src/usarray.c:55-58 | returns the mode |
| UsArray.UsArray.SetSensor | ultrasound_fpga/workspace/ultrasound/src/usarray.c:60-63 | the selected sensor becomes any given byte, unchecked |
| UsArray.UsArray.GetSensor | ultrasound_fpga/workspace/ultrasound/src/usarray.c:65-68 | returns the selected sensor |
| UsArray.UsArray.GetTemperature | ultrasound_fpga/workspace/ultrasound/src/usarray.c:79-82 | returns the temperature |
| UsArray.UsArray.SetTriggers | ultrasound_fpga/workspace/ultrasound/src/usarray.c:70-77 | the changeover is converted to a sample index and the levels to ADC codes, with the far pair stored crosswise |
| UsArray.UsArray.MeasureTemp | ultrasound_fpga/workspace/ultrasound/src/usarray.c:84-96 | the temperature request is sent, and the temperature becomes the conversion of the reply's data |
| UsArray.UsArray.Scan | ultrasound_fpga/workspace/ultrasound/src/usarray.c:98-125 | each covered position's row holds the samples of its replies and every other row is unchanged; the bursts and requests sent are `ScanPulses`/`ScanRequests` |
| UsArray.UsArray.ScanSensors | ultrasound_fpga/workspace/ultrasound/src/usarray.c:107-124 | the sensor loop: the rows of positions `lo` to `hi - 1` fill from their replies, the rest stay unchanged |
| UsArray.UsArray.ScanRow | ultrasound_fpga/workspace/ultrasound/src/usarray.c:115-123 | the sample loop: one row holds the data of its 5000 reply words truncated to 16 bits, and nothing else changes |
| UsArray.UsArray.UpdateRanges | ultrasound_fpga/workspace/ultrasound/src/usarray.c:127-165 | each covered position gets the range reading of its row under the current triggers and temperature; the other readings are unchanged |
| UsArray.UsArray.SensorRange | ultrasound_fpga/workspace/ultrasound/src/usarray.c:140-163 | the early-exit sample loop returns the same reading as the first-trigger definition |
| UsArray.UsArray.ScanAndRange | ultrasound_fpga/workspace/ultrasound/src/ultrasound.c:474-478 | a scan followed by the range update: both effects hold together |
| HostProtocol.RobotPayload | ultrasound_fpga/workspace/ultrasound/src/ultrasound.c:315-328 | the payload step never takes more bytes than are buffered |
| HostProtocol.ParsePending | ultrasound_fpga/workspace/ultrasound/src/ultrasound.c:113-353 | a pending command never leaves the channel idle and never takes more bytes than are buffered |
| HostProtocol.ParseDebug | ultrasound_fpga/workspace/ultrasound/src/ultrasound.c:108-117 | one poll never takes more bytes than are buffered |
| HostProtocol.PendingNeedsData | ultrasound_fpga/workspace/ultrasound/src/ultrasound.c:118-239 | a data command waits, taking nothing, exactly while it lacks its 1 (or 10) data bytes, and then takes exactly that many |
| HostProtocol.ParseResume | ultrasound_fpga/workspace/ultrasound/src/ultrasound.c:108-120 | a poll that leaves a command waiting, then a poll after more bytes arrive, acts like one poll over all the bytes |
| HostProtocol.NegativeRobotLengthSticks | ultrasound_fpga/workspace/ultrasound/src/ultrasound.c:305-316 | a length byte from 0x80 forwards nothing and leaves a negative count, and with that count every later robot command forwards nothing |
| HostProtocol.ParseEncode | ultrasound_fpga/workspace/ultrasound/src/ultrasound.c:108-353 | an encoded command, whatever follows it, parses in one poll as itself, taking exactly its bytes |
| HostProtocol.EncodeParse | ultrasound_fpga/workspace/ultrasound/src/ultrasound.c:108-353 | a completed poll from idle took exactly the encoding of the command it produced |
| HostProtocol.ExecuteKeepsValid | ultrasound_fpga/workspace/ultrasound/src/ultrasound.c:142-230 | no command can make the sensor list, selection or output mode leave their ranges |
| HostProtocol.DebugTextSent | ultrasound_fpga/workspace/ultrasound/src/ultrasound.c:639-646 | a debug line on the wire is "#DBG: ", the message, and a '\n' if asked for |
| HostProtocol.QuietUnlessDebugging | ultrasound_fpga/workspace/ultrasound/src/ultrasound.c:639-646 | with debugging off, no command prints anything except the one that switches debugging on |
| HostProtocol.RobotCommandForwards | ultrasound_fpga/workspace/ultrasound/src/ultrasound.c:305-334 | a robot command forwards its payload unchanged and in order, and resets the count |
| RobotLink.StripPass | ultrasound_fpga/workspace/ultrasound/src/ultrasound.c:366-404 | a pass of the loop body goes on only after reading the next byte, and prints nothing then |
| RobotLink.StripUnfold | ultrasound_fpga/workspace/ultrasound/src/ultrasound.c:365-405 | the strip loop is its body's pass, repeated while the pass goes on |
| RobotLink.Keep | ultrasound_fpga/workspace/ultrasound/src/ultrasound.c:393-397 | the stored part of a line is a prefix of it that fits in the 127 slots before the NUL |
| RobotLink.StoreLine | ultrasound_fpga/workspace/ultrasound/src/ultrasound.c:373-400 | inside a line, the bytes up to '\n' are stored as far as room allows, terminated, and forwarded |
| RobotLink.ForwardDebugLine | ultrasound_fpga/workspace/ultrasound/src/ultrasound.c:364-405 | a "#...\n" line reaches the PC, truncated to 127 bytes behind "3PI: ", only when debugging is on; the byte after the '\n' becomes the response |
| RobotLink.LineTextSent | ultrasound_fpga/workspace/ultrasound/src/ultrasound.c:380-385 | a forwarded line on the wire is the debug prefix, the buffer's C string and a '\n' |
| RobotLink.Dispatch | ultrasound_fpga/workspace/ultrasound/src/ultrasound.c:407-468 | the switch takes no more bytes than are buffered, and leaves either no response or the same one pending |
| RobotLink.PositionUpdate | ultrasound_fpga/workspace/ultrasound/src/ultrasound.c:423-436 | a position update carrying `mpSetPos`'s byte layout sets exactly that position, taking six bytes |
| RobotLink.PositionTextSent | ultrasound_fpga/workspace/ultrasound/src/ultrasound.c:438-447 | the report shows X and Y signed and Theta unsigned, comma-separated, ending in '\n' |
| RobotLink.NegativeThetaVanishes | ultrasound_fpga/workspace/ultrasound/src/ultrasound.c:445 | a negative heading prints as nothing at all |
| RobotLink.Poll3PI | ultrasound_fpga/workspace/ultrasound/src/ultrasound.c:360-469 | a poll keeps the link invariant and takes no more bytes than are buffered |
| RobotLink.PollFirst | ultrasound_fpga/workspace/ultrasound/src/ultrasound.c:361-362 | with no response held, a poll first reads one byte, if any, and then strips and dispatches |
| RobotLink.HashAfterLineDropped | ultrasound_fpga/workspace/ultrasound/src/ultrasound.c:373-404 | a '#' right after a debug line's '\n' is treated as a response and dropped, so the second line is not forwarded |
| RobotLink.StripResume | ultrasound_fpga/workspace/ultrasound/src/ultrasound.c:365-404 | inside a line, a run of bytes without '\n' is stored as far as the buffer reaches, and the loop then goes on as if entered with the byte after the run; with nothing after it, the loop ends in the line with no response and nothing printed |
| RobotLink.DryPoll | ultrasound_fpga/workspace/ultrasound/src/ultrasound.c:360-409 | a poll inside a line over bytes without '\n' takes them all, stays in the line with no response, stores them as far as the 127 slots allow, prints nothing and leaves the position alone |
| RobotLink.PollLine | ultrasound_fpga/workspace/ultrasound/src/ultrasound.c:360-409 | a poll inside a line over the rest of the line, its '\n' and what follows stores the line, terminates and forwards it, and dispatches the byte after the '\n' |
| RobotLink.KeepJoin | ultrasound_fpga/workspace/ultrasound/src/ultrasound.c:393-397 | storing a line in two parts, the second from where the first stopped, stores what storing it whole would |
| RobotLink.SplitLine | ultrasound_fpga/workspace/ultrasound/src/ultrasound.c:360-409 | a line split over two polls, the first running dry before the '\n', is stored, terminated and forwarded as the joined line, and the byte after the '\n' is dispatched |
| Telemetry.PairRoundTrip | ultrasound_fpga/workspace/ultrasound/src/ultrasound.c:501-502 | an item carries the tag's low nibble and the value's low 12 bits, and nothing else |
| Telemetry.PairRoundTripExact | ultrasound_fpga/workspace/ultrasound/src/ultrasound.c:501-502 | a tag below 16 and a value below 4096 come back exactly |
| Telemetry.FirstByteNotMarker | ultrasound_fpga/workspace/ultrasound/src/ultrasound.c:484-525 | an item's first byte with a tag below 10 is never 0xFF or 0x7F, so markers are recognisable at item boundaries |
| Telemetry.RowPairsAt | ultrasound_fpga/workspace/ultrasound/src/ultrasound.c:498-505 | item `j` of a row is sample `j` tagged with the sensor |
| Telemetry.WaveformBodyAt | ultrasound_fpga/workspace/ultrasound/src/ultrasound.c:495-508 | block `i` of the waveform body is the row of the `i`-th listed sensor |
| Telemetry.RangeBodyAt | ultrasound_fpga/workspace/ultrasound/src/ultrasound.c:509-520 | item `i` of the range body is the `i`-th listed sensor's reading, tagged `i` |
| Telemetry.RangeFrameDecodes | ultrasound_fpga/workspace/ultrasound/src/ultrasound.c:480-526 | a range frame is the markers around one item per listed sensor, and the PC recovers each position and the reading's low 12 bits |
| Telemetry.ItemDecodes | ultrasound_fpga/workspace/ultrasound/src/ultrasound.c:514-515 | an item's two bytes decode to its tag and its value's low 12 bits |
| Ultrasound.DebugChar | ultrasound_fpga/workspace/ultrasound/src/ultrasound.c:219-223 | the stream gains the debug prefix, the message, one character and '\n' |
| Ultrasound.PrintTriggers | ultrasound_fpga/workspace/ultrasound/src/ultrasound.c:245-257 | the stream gains the trigger report with the five values in unsigned decimal |
| Ultrasound.PrintPosition | ultrasound_fpga/workspace/ultrasound/src/ultrasound.c:439-447 | the stream gains the position report |
| Ultrasound.PrintLine | ultrasound_fpga/workspace/ultrasound/src/ultrasound.c:381-385 | the stream gains the forwarded debug line |
| Ultrasound.ReadBytes | ultrasound_fpga/workspace/ultrasound/src/ultrasound.c:236-239 | `n` reads return the first `n` received bytes in order and remove exactly them |
| Ultrasound.Controller.constructor | ultrasound_fpga/workspace/ultrasound/src/ultrasound.c:17-75 | the initial globals, with six sensors listed, the array enabled, no output, debugging off and nothing pending |
| Ultrasound.Controller.DebugPrint | ultrasound_fpga/workspace/ultrasound/src/ultrasound.c:639-646 | the PC stream gains the debug line when debugging is on, and nothing otherwise |
| Ultrasound.Controller.ProcessSerialDebug | ultrasound_fpga/workspace/ultrasound/src/ultrasound.c:108-358 | one poll does what `ParseDebug` says: the bytes it takes, the pending command and count it leaves, and, for a complete command, the settings change, reply, forwarded payload and passthrough of `Execute` |
| Ultrasound.Controller.RunCommand | ultrasound_fpga/workspace/ultrasound/src/ultrasound.c:113-354 | the switch on a pending command does what `ParsePending` says |
| Ultrasound.Controller.OneByteStep | ultrasound_fpga/workspace/ultrasound/src/ultrasound.c:118-304 | a one-byte command waits for its byte, then runs |
| Ultrasound.Controller.OneByteRun | ultrasound_fpga/workspace/ultrasound/src/ultrasound.c:118-304 | a one-byte command with its byte buffered completes as `ParsePending` says |
| Ultrasound.Controller.DataByteCommand | ultrasound_fpga/workspace/ultrasound/src/ultrasound.c:122-304 | takes one byte and applies `Execute` of the command to the settings and the stream |
| Ultrasound.Controller.SetDebugCommand | ultrasound_fpga/workspace/ultrasound/src/ultrasound.c:118-141 | the flag follows the byte; enabling always prints "DEBUG ENABLED", and disabling prints "DEBUG DISABLED" only when debugging was on |
| Ultrasound.Controller.SetUsModeCommand | ultrasound_fpga/workspace/ultrasound/src/ultrasound.c:142-203 | the mode change of `ApplyMode` and its notice |
| Ultrasound.Controller.SelectMode | ultrasound_fpga/workspace/ultrasound/src/ultrasound.c:151-200 | mode 0 disables the array; mode 1 lists the selected sensor alone; mode 2 lists all ten in order; other modes change nothing |
| Ultrasound.Controller.SetUsSensorCommand | ultrasound_fpga/workspace/ultrasound/src/ultrasound.c:204-230 | only a byte reading as 0-9 selects a sensor; others print the rejection |
| Ultrasound.Controller.SelectSensor | ultrasound_fpga/workspace/ultrasound/src/ultrasound.c:212-223 | the array selects the sensor, a single listed sensor is replaced by it, and it is echoed |
| Ultrasound.Controller.ListSelected | ultrasound_fpga/workspace/ultrasound/src/ultrasound.c:215-216 | only with one sensor listed is the list's head replaced |
| Ultrasound.Controller.SetUsOutputCommand | ultrasound_fpga/workspace/ultrasound/src/ultrasound.c:261-304 | the output mode follows bytes 0-2, other bytes change nothing, and the notice is printed |
| Ultrasound.Controller.TriggersStep | ultrasound_fpga/workspace/ultrasound/src/ultrasound.c:231-260 | the trigger command waits for ten bytes, then completes as `ParsePending` says |
| Ultrasound.Controller.TriggersRun | ultrasound_fpga/workspace/ultrasound/src/ultrasound.c:236-259 | with ten bytes buffered the command completes as `ParsePending` says |
| Ultrasound.Controller.TriggersCommand | ultrasound_fpga/workspace/ultrasound/src/ultrasound.c:236-259 | five little-endian values are read, taking exactly ten bytes, and `Execute` of the trigger command holds |
| Ultrasound.Controller.SetTriggers | ultrasound_fpga/workspace/ultrasound/src/ultrasound.c:242-257 | the array's triggers are set and reported as `Execute` says |
| Ultrasound.Controller.RobotCommandStep | ultrasound_fpga/workspace/ultrasound/src/ultrasound.c:305-334 | the robot command reads its length, waits for its payload and forwards it, as `ParsePending` says |
| Ultrasound.Controller.LengthThenPayload | ultrasound_fpga/workspace/ultrasound/src/ultrasound.c:307-316 | the length byte is read as a signed `char`, then the payload step runs |
| Ultrasound.Controller.RobotPayloadStep | ultrasound_fpga/workspace/ultrasound/src/ultrasound.c:315-333 | with the length held, the step waits for that many bytes, then forwards, as `RobotPayload` says |
| Ultrasound.Controller.RobotRun | ultrasound_fpga/workspace/ultrasound/src/ultrasound.c:318-333 | with the payload buffered the command completes as `RobotPayload` says |
| Ultrasound.Controller.IssueRobotCommand | ultrasound_fpga/workspace/ultrasound/src/ultrasound.c:318-331 | a positive length moves that many bytes, in order, from the PC to the robot and prints the notice |
| Ultrasound.Controller.ForwardPayload | ultrasound_fpga/workspace/ultrasound/src/ultrasound.c:319-328 | the loop moves exactly the first `n` PC bytes to the robot stream and counts down to 0; a length of 0 or less moves nothing |
| Ultrasound.Controller.ForwardByte | ultrasound_fpga/workspace/ultrasound/src/ultrasound.c:320-327 | one loop step moves byte `k` of the payload |
| Ultrasound.Controller.NoDataStep | ultrasound_fpga/workspace/ultrasound/src/ultrasound.c:335-353 | ping, passthrough and unknown codes complete as `ParsePending` says |
| Ultrasound.Controller.NoDataCommand | ultrasound_fpga/workspace/ultrasound/src/ultrasound.c:335-353 | the notice is printed, nothing else changes, and only code 0x08 enters passthrough |
| Ultrasound.Controller.ProcessSerial3PI | ultrasound_fpga/workspace/ultrasound/src/ultrasound.c:360-469 | one poll does what `Poll3PI` says: the link, the position, the bytes taken and the text printed |
| Ultrasound.Controller.FirstResponseThenStrip | ultrasound_fpga/workspace/ultrasound/src/ultrasound.c:360-469 | with no response held, the poll does what `Poll3PI` says |
| Ultrasound.Controller.ReadFirstResponse | ultrasound_fpga/workspace/ultrasound/src/ultrasound.c:362 | the response becomes the next byte, or none, and at most that byte is taken |
| Ultrasound.Controller.StripAndDispatch | ultrasound_fpga/workspace/ultrasound/src/ultrasound.c:364-469 | the strip loop and the switch do what `StripThenDispatch` says |
| Ultrasound.Controller.DispatchAfterStrip | ultrasound_fpga/workspace/ultrasound/src/ultrasound.c:407-469 | after a strip loop, the switch completes the poll as `AfterStrip` says |
| Ultrasound.Controller.StripDebugLines | ultrasound_fpga/workspace/ultrasound/src/ultrasound.c:364-405 | the strip loop leaves the link, RX ring and PC stream `StripLoop` describes |
| Ultrasound.Controller.StripRest | ultrasound_fpga/workspace/ultrasound/src/ultrasound.c:365-405 | from part way through, the loop ends in the state of the whole loop's outcome |
| Ultrasound.Controller.StripStep | ultrasound_fpga/workspace/ultrasound/src/ultrasound.c:366-404 | one pass either keeps the loop's outcome ahead, having taken fewer bytes, or reaches it |
| Ultrasound.Controller.StripPassStep | ultrasound_fpga/workspace/ultrasound/src/ultrasound.c:366-404 | the body's statements do what `StripPass` says |
| Ultrasound.Controller.EndLine | ultrasound_fpga/workspace/ultrasound/src/ultrasound.c:373-389 | a '\n' in a line terminates the buffer, forwards the line if debugging, reads the next byte, and ends the loop |
| Ultrasound.Controller.StoreLineByte | ultrasound_fpga/workspace/ultrasound/src/ultrasound.c:392-400 | a line byte is stored while there is room, and the next byte is read |
| Ultrasound.Controller.DispatchResponse | ultrasound_fpga/workspace/ultrasound/src/ultrasound.c:407-468 | the switch does what `Dispatch` says |
| Ultrasound.Controller.PositionStep | ultrasound_fpga/workspace/ultrasound/src/ultrasound.c:423-449 | a position update waits for six bytes, then sets and reports the position as `PositionResponse` says |
| Ultrasound.Controller.ButtonStep | ultrasound_fpga/workspace/ultrasound/src/ultrasound.c:450-464 | a button press waits for its byte, then completes as `ButtonResponse` says |
| Ultrasound.Controller.ButtonRun | ultrasound_fpga/workspace/ultrasound/src/ultrasound.c:454-463 | the byte is read as a signed `char` and echoed as `'0' + data` |
| Ultrasound.Controller.ButtonReport | ultrasound_fpga/workspace/ultrasound/src/ultrasound.c:457-462 | the echo is printed only when debugging is on |
| Ultrasound.Controller.ProcessUSArray | ultrasound_fpga/workspace/ultrasound/src/ultrasound.c:471-528 | disabled or with no sensor listed, nothing happens; otherwise the scan and range update hold and the PC stream gains exactly the frame of the output mode |
| Ultrasound.Controller.ScanAndReport | ultrasound_fpga/workspace/ultrasound/src/ultrasound.c:473-526 | scan, ranges and frame together |
| Ultrasound.Controller.ReportFrame | ultrasound_fpga/workspace/ultrasound/src/ultrasound.c:480-526 | the stream gains the frame, which is empty for output mode none |
| Ultrasound.Controller.EmitFrame | ultrasound_fpga/workspace/ultrasound/src/ultrasound.c:483-525 | the start marker, the body and the end marker, in that order |
| Ultrasound.Controller.EmitBody | ultrasound_fpga/workspace/ultrasound/src/ultrasound.c:490-521 | the body of the output mode |
| Ultrasound.Controller.EmitWaveforms | ultrasound_fpga/workspace/ultrasound/src/ultrasound.c:495-508 | the rows of the listed sensors, in list order |
| Ultrasound.Controller.EmitBlock | ultrasound_fpga/workspace/ultrasound/src/ultrasound.c:497-506 | one listed sensor's row after the rows before it |
| Ultrasound.Controller.EmitRow | ultrasound_fpga/workspace/ultrasound/src/ultrasound.c:498-505 | every sample of the row, tagged with the sensor, in order |
| Ultrasound.Controller.EmitRanges | ultrasound_fpga/workspace/ultrasound/src/ultrasound.c:509-520 | one item per listed sensor, tagged with its place in the list |
| Mbed.Sampler.constructor | ultrasound_mbed/ultrasound.c:11-15 | zeroed globals, transmitter and both timers off |
| Mbed.Sampler.StartCycle | ultrasound_mbed/ultrasound.c:48-68 | the index and complete flag are reset, the burst counter is armed with 10 ticks, and the transmitter and both timers are on |
| Mbed.Sampler.Timer0Irq | ultrasound_mbed/ultrasound.c:84-105 | the counter decrements with 8-bit wrap, and the tick reaching 0 switches the transmitter and timer 0 off |
| Mbed.Sampler.Timer1Irq | ultrasound_mbed/ultrasound.c:107-131 | the reading is appended at the index, no other sample changes, and the tick that fills the array sets the flag and stops timer 1 |
| Mbed.Cycle | ultrasound_mbed/ultrasound.c:44-71 | after the per-cycle reset and one timer 1 interrupt per reading, for up to 320 readings, the index equals the number of readings and the samples hold them in arrival order; the complete flag is set and timer 1 stopped exactly when all 320 are in |
| Mbed.DataSizeIs320 | ultrasound_mbed/ultrasound.h:15-18 | the array holds 320 samples, 4000 us at 12.5 us per sample; a burst is 10 ticks |

## Left out

- Hardware and platform set-up are not modelled. This covers `init_uart_buffers`' UART driver calls and `malloc` (uart.c:5-27), `init_platform`, the GPIO, timer and interrupt-controller set-up in `main`, and the `putfsl`/`getfsl` transfers, whose words are returned or taken as parameters.
- The main loops are not modelled as loops: FPGA `main` (ultrasound.c:90-97) and mbed `main` (ultrasound_mbed/ultrasound.c:44-82). Each step they repeat is a method, and there is no scheduler or interleaving of interrupts with the main loop.
- `Passthrough3PI` (ultrasound.c:530-546) is not modelled. It never returns; entering it is recorded by the `passthrough` flag.
- Ultrasound.Controller.NoDataCommand: resets the pending command after setting `passthrough`. The source never returns from `Passthrough3PI`, so it never reaches that reset.
- `Drive3PI` (ultrasound.c:583-614) is not modelled. It decides on `usarray_detect_obstacle`, which is not part of this model. The commands it sends are covered by `MobPlat.MpSetMotorSpeed`.
- `Init3PI` (ultrasound.c:575-581) is not modelled separately: it is `MpBeep` followed by `MpSetMode(0)`.
- `TestFSL` (ultrasound.c:550-571) is not modelled separately: it prints through `xil_printf`, and its decision is `UsReceiver.TestUSFSL`.
- `heartBeat`, the system tick ISR and the LED, GPIO and debug pins are not modelled (ultrasound.c:618-635, and mbed). These are timing and LED output only.
- The mbed serial output (`serial_printf` of the samples), the busy-wait on `sampleComplete`, the ADC itself (its reading is a parameter) and the timer interrupt acknowledgements are not modelled.
- Uart.UartBuff.PutChar: does not model the transmit kick at uart.c:107-117. When the hardware TX FIFO is empty, `uart_putchar` calls the interrupt handler, which runs an RX pass and a TX pass. The model leaves that draining to `InterruptHandler`, and `TxStream()` is unaffected either way.
- Uart.UartBuff.PutCharBlocking: models the retry spin as one drain of a single byte followed by one successful retry. Any longer interleaving with the interrupt handler gives the same `TxStream()`.
- Uart.UartBuff.ReceiveFromFifo: one bounded pass over the FIFO contents, with a single `rxFifoFull` status bit. The source's loop re-reads the status register after each byte, and while the ring is full it reads no byte, so it keeps polling for as long as the FIFO holds data (see "## Findings"). The model stops there instead.
- `uart_print_char`, which `ProcessUSArray` calls (ultrasound.c:484-525), is declared in uart.h:42 but has no body in uart.c. It is modelled as a blocking `uart_putchar` of one byte.
- The `TRIGGER_*` and `SENSOR_*` constants are not defined in any file of this model. The trigger defaults and the six initial sensor positions are therefore constructor parameters.
- UsArray.UsArray.Scan: resets `usSampleIndex` after the sensor loop rather than before it (usarray.c:100). Nothing in between reads it, and nothing else in the modelled code uses it.
- Ultrasound.Controller.SetUsModeCommand, Ultrasound.Controller.SetUsOutputCommand and Ultrasound.Controller.SetUsSensorCommand: do the state change and then the print, in one order for all cases. The source interleaves them, but no print reads the changed state.
- The `US_STATE` enum, `usarray_get_status`, `usarray_reset` and the two array interrupt handlers declared in usarray.h have no body in usarray.c and are not modelled.
- UsArray.MeasuredTemperature: for reply data above 1717986, `((int) adcTempResult) * 125 * 10` (usarray.c:95) overflows `int`, which is undefined behaviour in C. The 28-bit data field allows such values; the model takes the two's-complement wrap (`ToInt32`), and `MeasuredTemperatureScale` states the result only up to 26214.
- Uart.UartBuff.PrintInt: `-INT_MIN` is undefined behaviour in C; the model takes the usual two's-complement wrap (`Negate32`).
- Floating point, concurrency between the interrupt handlers and the main loop, and the hardware timing are not modelled.

## Findings

| source | as written | input that shows it | evidently intended | confidence | as-written member | corrected member |
|---|---|---|---|---|---|---|
| ultrasound_fpga/workspace/ultrasound/src/uart.c:37-55 | while the RX ring is full the loop reads no byte, yet re-reads a status that still reports data, so the interrupt handler never returns and the main loop never drains the ring | 128 unread bytes in the RX ring and one byte waiting in the hardware FIFO | leave the remaining bytes in the FIFO (setting the overflow flag when it is full) and go on to the TX half | not executed; high | Uart.RxLoopNeverExits | Uart.UartBuff.ReceiveFromFifo |
