/** Interrupt-driven UART byte rings (`uart.c`).

    Each channel owns a transmit ring and a receive ring of 128 bytes.  The
    main-loop code pops RX (`uart_getchar`) and pushes TX (`uart_putchar`); the
    interrupt handler pushes RX from the hardware FIFO and drains TX into
    it.  The hardware FIFO and its status bits are parameters here. */
module Uart {
  import opened Bytes

  const BUFFER_SIZE_TX: nat := 128
  const BUFFER_SIZE_RX: nat := 128

  /** The TX count after `n` blocking puts starting from `count`: each put
      finds room, or waits until the interrupt handler frees one slot, so
      the ring fills up and then stays full. */
  function QueuedAfter(count: nat, n: nat): (q: nat)
    ensures q <= count + n
    ensures count <= BUFFER_SIZE_TX ==> q <= BUFFER_SIZE_TX
    ensures count + n <= BUFFER_SIZE_TX ==> q == count + n
  {
    if count + n <= BUFFER_SIZE_TX then count + n else BUFFER_SIZE_TX
  }

  // ---------------------------------------------------------------------
  // Ring windows

  /** Slot `read + k` of a ring of `n` slots, wrapped the way the firmware
      wraps its indices (`if (index == size) index = 0`). */
  function Slot(read: nat, k: nat, n: nat): nat {
    if read + k < n then read + k else read + k - n
  }

  /** The bytes queued in a ring: `count` slots starting at `read`. */
  function Window(buf: seq<byte>, read: nat, count: nat): (w: seq<byte>)
    requires read < |buf| && count <= |buf|
    ensures |w| == count
  {
    seq(count, k requires 0 <= k < count => buf[Slot(read, k, |buf|)])
  }

  /** Storing at the slot just past the window appends to the window. */
  lemma WindowPush(buf: seq<byte>, read: nat, count: nat, c: byte)
    requires read < |buf| && count < |buf|
    ensures Window(buf[Slot(read, count, |buf|) := c], read, count + 1)
         == Window(buf, read, count) + [c]
  {
    var after := buf[Slot(read, count, |buf|) := c];
    forall k | 0 <= k < count
      ensures Window(after, read, count + 1)[k] == Window(buf, read, count)[k]
    {
      assert Slot(read, k, |buf|) != Slot(read, count, |buf|);
    }
  }

  /** Advancing the read slot by one drops the head of the window. */
  lemma WindowPop(buf: seq<byte>, read: nat, count: nat)
    requires read < |buf| && 0 < count <= |buf|
    ensures Window(buf, read, count)[0] == buf[read]
    ensures Slot(read, 1, |buf|) < |buf|
    ensures Window(buf, Slot(read, 1, |buf|), count - 1) == Window(buf, read, count)[1..]
  {
  }

  // ---------------------------------------------------------------------
  // C strings and decimal text

  /** Index of the first NUL in `s`, or `|s|` when there is none. */
  function NulIndex(s: seq<byte>): (n: nat)
    ensures n <= |s|
    ensures forall j :: 0 <= j < n ==> s[j] != NUL
    ensures n < |s| ==> s[n] == NUL
  {
    if s == [] then 0
    else if s[0] == NUL then 0
    else 1 + NulIndex(s[1..])
  }

  /** The text `uart_print` sends for a buffer: everything before the first NUL. */
  function CString(s: seq<byte>): (r: seq<byte>)
    ensures forall j :: 0 <= j < |r| ==> r[j] != NUL
    ensures r <= s
    ensures |r| < |s| ==> s[|r|] == NUL
  {
    s[..NulIndex(s)]
  }

  /** What `uart_print` sends for a C string literal: its characters up to
      the first NUL.  Stated character by character; `LiteralIsCString`
      shows it is the C string of the literal with its terminator. */
  function Literal(msg: string): seq<byte> {
    if msg == [] || (msg[0] as int) % 0x100 == 0 then []
    else [(msg[0] as int) % 0x100] + Literal(msg[1..])
  }

  /** The literal's text is `uart_print` of the characters the compiler
      stores for it, terminator included. */
  lemma {:induction false} LiteralIsCString(msg: string)
    ensures Literal(msg) == CString(Ascii(msg) + [NUL])
  {
    var s := Ascii(msg) + [NUL];
    if msg == [] {
    } else if (msg[0] as int) % 0x100 == 0 {
      assert s[0] == NUL;
    } else {
      LiteralIsCString(msg[1..]);
      assert s[1..] == Ascii(msg[1..]) + [NUL];
      assert NulIndex(s) == 1 + NulIndex(s[1..]);
      assert CString(s) == [s[0]] + CString(s[1..]);
    }
  }

  /** A literal without a NUL character is sent whole. */
  lemma {:induction false} LiteralWhole(msg: string)
    requires forall i :: 0 <= i < |msg| ==> (msg[i] as int) % 0x100 != 0
    ensures Literal(msg) == Ascii(msg)
  {
    if msg != [] {
      LiteralWhole(msg[1..]);
      assert Ascii(msg) == [(msg[0] as int) % 0x100] + Ascii(msg[1..]);
    }
  }

  lemma CStringOfTerminated(text: seq<byte>)
    requires forall j :: 0 <= j < |text| ==> text[j] != NUL
    ensures CString(text + [NUL]) == text
  {
    var s := text + [NUL];
    assert s[|text|] == NUL;
    assert forall j :: 0 <= j < |text| ==> s[j] == text[j];
    assert s[..|text|] == text;
  }

  predicate IsDigit(b: byte) {
    ZERO <= b < ZERO + 10
  }

  /** The value a string of decimal digits denotes. */
  function DecimalValue(s: seq<byte>): nat
    requires forall j :: 0 <= j < |s| ==> IsDigit(s[j])
  {
    if s == [] then 0
    else
      var last := s[|s| - 1];
      assert IsDigit(last);
      DecimalValue(s[..|s| - 1]) * 10 + (last - ZERO)
  }

  /** Decimal digits of a positive number, most significant first. */
  function Digits(n: nat): (s: seq<byte>)
    requires n > 0
    ensures 1 <= |s|
    ensures forall j :: 0 <= j < |s| ==> IsDigit(s[j])
    decreases n
  {
    if n < 10 then [ZERO + n] else Digits(n / 10) + [ZERO + n % 10]
  }

  /** The generated text never starts with a redundant '0'. */
  lemma {:induction false} DigitsNoLeadingZero(n: nat)
    requires n > 0
    ensures Digits(n)[0] != ZERO
    decreases n
  {
    if n >= 10 {
      DigitsNoLeadingZero(n / 10);
    }
  }

  lemma {:induction false} DigitsRoundTrip(n: nat)
    requires n > 0
    ensures DecimalValue(Digits(n)) == n
    decreases n
  {
    if n >= 10 {
      DigitsRoundTrip(n / 10);
      var s := Digits(n);
      assert s[..|s| - 1] == Digits(n / 10);
    }
  }

  /** One step of generating digits backwards: the last digit of `v`
      moves from `Digits(v)` to the front of the generated tail. */
  lemma DigitsPrepend(v: nat, tail: seq<byte>, val: nat)
    requires v > 0 && val > 0 && Digits(v) + tail == Digits(val)
    ensures ZERO + v % 10 < 0x100
    ensures v / 10 > 0 ==> Digits(v / 10) + ([ZERO + v % 10] + tail) == Digits(val)
    ensures v / 10 == 0 ==> [ZERO + v % 10] + tail == Digits(val)
  {
    if v >= 10 {
      assert Digits(v) == Digits(v / 10) + [ZERO + v % 10];
    }
  }

  function Pow10(k: nat): (p: nat)
    ensures p >= 1
  {
    if k == 0 then 1 else 10 * Pow10(k - 1)
  }

  lemma {:induction false} DigitsLength(n: nat, k: nat)
    requires 0 < n < Pow10(k)
    ensures |Digits(n)| <= k
    decreases k
  {
    if n >= 10 {
      DigitsLength(n / 10, k - 1);
    }
  }

  /** Two's-complement negation of a 32-bit `int`: `-INT_MIN` wraps to itself. */
  function Negate32(v: int32): int32 {
    ToInt32(-(v as int))
  }

  /** The digits `uart_print_int` prints for the magnitude `v`: none when
      `v` is negative (the digit loop only runs while `v > 0`). */
  function IntBody(v: int32): seq<byte> {
    if v == 0 then [ZERO] else if v > 0 then Digits(v) else []
  }

  /** What `uart_print_int(buf, val, isSigned)` sends. */
  function IntText(val: int32, isSigned: bool): seq<byte> {
    if val < 0 && isSigned then [MINUS] + IntBody(Negate32(val)) else IntBody(val)
  }

  /** The text is the decimal notation of `val`: a lone '0' for zero,
      digits without a leading zero whose value is `val` otherwise, behind
      a '-' for a signed negative.  Two corner cases of the C code show:
      a negative value printed unsigned gives no text at all, and `INT_MIN`
      negates to itself, so only its '-' is printed. */
  lemma IntTextMeaning(val: int32, isSigned: bool)
    ensures var r := IntText(val, isSigned);
            && (val == 0 ==> r == [ZERO])
            && (val > 0 ==> |r| >= 1 && (forall j :: 0 <= j < |r| ==> IsDigit(r[j]))
                            && r[0] != ZERO && DecimalValue(r) == val)
            && (val < 0 && isSigned && val != -0x8000_0000 ==>
                  |r| >= 2 && r[0] == MINUS && r[1] != ZERO
                  && (forall j :: 1 <= j < |r| ==> IsDigit(r[j]))
                  && DecimalValue(r[1..]) == -val)
            && (val < 0 && !isSigned ==> r == [])
            && (val == -0x8000_0000 && isSigned ==> r == [MINUS])
  {
    var r := IntText(val, isSigned);
    if val > 0 {
      DigitsRoundTrip(val);
      DigitsNoLeadingZero(val);
    } else if val < 0 && isSigned && val != -0x8000_0000 {
      var v := Negate32(val);
      assert v == -val;
      DigitsRoundTrip(v);
      DigitsNoLeadingZero(v);
      assert r[1..] == Digits(v);
    }
  }

  lemma IntTextLength(val: int32, isSigned: bool)
    ensures |IntText(val, isSigned)| <= 11
  {
    if val != 0 {
      var v := if val < 0 && isSigned then Negate32(val) else val;
      if v > 0 {
        assert Pow10(10) == 10000000000;
        DigitsLength(v, 10);
      }
    }
  }

  // ---------------------------------------------------------------------
  // Printed text

  /** One call of the print routines, described by its argument:
      `uart_print` of a string literal or of a `char` buffer,
      `uart_print_int`, or one character put by `uart_print_char` or
      `uart_putchar`. */
  datatype Piece =
    | Text(msg: string)
    | Buffer(buf: seq<byte>)
    | Int(val: int32, isSigned: bool)
    | Char(c: byte)

  /** The bytes one call sends. */
  function PieceBytes(p: Piece): seq<byte> {
    match p
    case Text(msg) => Literal(msg)
    case Buffer(buf) => CString(buf)
    case Int(val, isSigned) => IntText(val, isSigned)
    case Char(c) => [c]
  }

  /** The bytes a series of calls sends, in call order. */
  function Render(ps: seq<Piece>): seq<byte> {
    if ps == [] then [] else PieceBytes(ps[0]) + Render(ps[1..])
  }

  /** Printing two series one after the other sends their texts one after
      the other. */
  lemma {:induction false} RenderAppend(a: seq<Piece>, b: seq<Piece>)
    ensures Render(a + b) == Render(a) + Render(b)
  {
    if a == [] {
      assert a + b == b;
    } else {
      assert (a + b)[1..] == a[1..] + b;
      RenderAppend(a[1..], b);
      AppendAssoc(PieceBytes(a[0]), Render(a[1..]), Render(b));
    }
  }

  /** The stream after calls `done` and then `more`. */
  lemma RenderExtend(t0: seq<byte>, done: seq<Piece>, more: seq<Piece>)
    ensures t0 + Render(done) + Render(more) == t0 + Render(done + more)
  {
    RenderAppend(done, more);
    AppendAssoc(t0, Render(done), Render(more));
  }

  /** Two calls in a row. */
  lemma RenderPair(a: Piece, b: Piece)
    ensures Render([a, b]) == PieceBytes(a) + PieceBytes(b)
  {
    assert [a, b][1..] == [b];
    assert Render([b]) == PieceBytes(b) + Render([]);
  }

  /** Characters put one by one are sent as they are. */
  lemma {:induction false} RenderChars(cs: seq<byte>)
    ensures Render(seq(|cs|, i requires 0 <= i < |cs| => Char(cs[i]))) == cs
  {
    var ps := seq(|cs|, i requires 0 <= i < |cs| => Char(cs[i]));
    if cs != [] {
      assert ps[1..] == seq(|cs[1..]|, i requires 0 <= i < |cs[1..]| => Char(cs[1..][i]));
      RenderChars(cs[1..]);
      assert cs == [cs[0]] + cs[1..];
    }
  }

  // ---------------------------------------------------------------------
  // The RX loop of the interrupt handler as written

  /** Where the RX loop of `InterruptHandler_UART` stands: the ring's
      count, the bytes still in the FIFO, the overflow flag, and whether
      the loop condition still holds. */
  datatype RxLoopState = RxLoopState(count: nat, fifo: seq<byte>, overflow: bool, running: bool)

  /** The RX loop as written, after at most `steps` passes of its body.
      The status register reports data exactly while the FIFO holds some;
      with room a byte moves into the ring, and without room no byte is
      read and only the overflow flag may change, before the status is
      read again. */
  function RxLoopAsWritten(count: nat, fifo: seq<byte>, fifoFull: bool, overflow: bool, steps: nat): (r: RxLoopState)
    ensures !r.running ==> r.fifo == []
    decreases steps
  {
    if fifo == [] then RxLoopState(count, fifo, overflow, false)
    else if steps == 0 then RxLoopState(count, fifo, overflow, true)
    else if count < BUFFER_SIZE_RX then RxLoopAsWritten(count + 1, fifo[1..], fifoFull, overflow, steps - 1)
    else RxLoopAsWritten(count, fifo, fifoFull, overflow || fifoFull, steps - 1)
  }

  /** With the RX ring full and a byte waiting in the FIFO, the loop never
      ends: after any number of passes it has read nothing and its
      condition still holds, so the handler does not return and the main
      loop never gets to empty the ring. */
  lemma {:induction false} RxLoopNeverExits(fifo: seq<byte>, fifoFull: bool, overflow: bool, steps: nat)
    requires fifo != []
    ensures var r := RxLoopAsWritten(BUFFER_SIZE_RX, fifo, fifoFull, overflow, steps);
            r.running && r.count == BUFFER_SIZE_RX && r.fifo == fifo
    decreases steps
  {
    if steps > 0 {
      RxLoopNeverExits(fifo, fifoFull, overflow || fifoFull, steps - 1);
    }
  }

  /** When the FIFO's bytes all fit, the loop as written ends after one
      pass per byte with all of them in the ring and the flag untouched,
      which is what the bounded pass `UartBuff.ReceiveFromFifo` does in
      that case. */
  lemma {:induction false} RxLoopWithRoom(count: nat, fifo: seq<byte>, fifoFull: bool, overflow: bool, steps: nat)
    requires count + |fifo| <= BUFFER_SIZE_RX && |fifo| <= steps
    ensures RxLoopAsWritten(count, fifo, fifoFull, overflow, steps) == RxLoopState(count + |fifo|, [], overflow, false)
    decreases steps
  {
    if fifo != [] {
      RxLoopWithRoom(count + 1, fifo[1..], fifoFull, overflow, steps - 1);
    }
  }

  // ---------------------------------------------------------------------
  // The channel

  /** One serial channel: the two rings of `uart_buff`.  The sizes are the
      array lengths, fixed at 128 bytes by `init_uart_buffers`. */
  class UartBuff {
    const bufferTX: array<byte>
    var indexTXRead: nat
    var indexTXWrite: nat
    var countTX: nat
    var overflowTX: bool

    /** Every byte the TX interrupt has written to the hardware FIFO, in
        order. */
    ghost var txSent: seq<byte>

    const bufferRX: array<byte>
    var indexRXRead: nat
    var indexRXWrite: nat
    var countRX: nat
    var overflowRX: bool

    /** The ring invariant of both directions. */
    ghost predicate Valid()
      reads this
    {
      && bufferTX.Length == BUFFER_SIZE_TX
      && bufferRX.Length == BUFFER_SIZE_RX
      && bufferTX != bufferRX
      && indexTXRead < BUFFER_SIZE_TX
      && countTX <= BUFFER_SIZE_TX
      && indexTXWrite == Slot(indexTXRead, countTX, BUFFER_SIZE_TX)
      && indexRXRead < BUFFER_SIZE_RX
      && countRX <= BUFFER_SIZE_RX
      && indexRXWrite == Slot(indexRXRead, countRX, BUFFER_SIZE_RX)
    }

    /** Bytes queued for transmission, oldest first. */
    ghost function TxContents(): seq<byte>
      reads this, bufferTX
      requires Valid()
    {
      Window(bufferTX[..], indexTXRead, countTX)
    }

    /** Every byte the main-loop code has queued for transmission, in order:
        those already handed to the hardware, then those still waiting. */
    ghost function TxStream(): seq<byte>
      reads this, bufferTX
      requires Valid()
    {
      txSent + TxContents()
    }

    /** Bytes received and not yet read by the main loop, oldest first. */
    ghost function RxContents(): seq<byte>
      reads this, bufferRX
      requires Valid()
    {
      Window(bufferRX[..], indexRXRead, countRX)
    }

    /** Free TX slots. */
    ghost function TxRoom(): nat
      reads this
      requires Valid()
    {
      BUFFER_SIZE_TX - countTX
    }

    /** The buffer part of `init_uart_buffers`: both rings empty, indices at
        zero as in the zero-initialised global `uart_buff`. */
    constructor ()
      ensures Valid() && fresh(bufferTX) && fresh(bufferRX)
      ensures TxContents() == [] && RxContents() == [] && txSent == []
      ensures countTX == 0 && countRX == 0
      ensures indexTXRead == indexTXWrite == indexRXRead == indexRXWrite == 0
      ensures !overflowTX && !overflowRX
    {
      bufferTX := new byte[BUFFER_SIZE_TX];
      bufferRX := new byte[BUFFER_SIZE_RX];
      indexTXRead, indexTXWrite, countTX, overflowTX := 0, 0, 0, false;
      txSent := [];
      indexRXRead, indexRXWrite, countRX, overflowRX := 0, 0, 0, false;
    }

    /** `uart_getchar`: pop the oldest received byte, or -1 when none. */
    method GetChar() returns (c: int)
      requires Valid()
      modifies this`indexRXRead, this`countRX
      ensures Valid()
      ensures old(countRX) == 0 ==>
                c == -1 && indexRXRead == old(indexRXRead) && countRX == 0
                && RxContents() == old(RxContents())
      ensures old(countRX) > 0 ==>
                0 <= c < 0x100 && c == old(RxContents())[0] && c == bufferRX[old(indexRXRead)]
                && RxContents() == old(RxContents())[1..]
                && countRX == old(countRX) - 1
                && indexRXRead == Slot(old(indexRXRead), 1, BUFFER_SIZE_RX)
    {
      if countRX > 0 {
        WindowPop(bufferRX[..], indexRXRead, countRX);
        c := bufferRX[indexRXRead];
        indexRXRead := indexRXRead + 1;
        if indexRXRead == BUFFER_SIZE_RX {
          indexRXRead := 0;
        }
        countRX := countRX - 1;
      } else {
        return -1;
      }
    }

    /** `uart_putchar` without the transmit kick: queue `c` when there is
        room, otherwise set the sticky overflow flag and return -1. */
    method PutChar(c: byte) returns (r: int)
      requires Valid()
      modifies this`indexTXWrite, this`countTX, this`overflowTX, bufferTX
      ensures Valid()
      ensures old(countTX) < BUFFER_SIZE_TX ==>
                r == 1 && TxContents() == old(TxContents()) + [c]
                && bufferTX[old(indexTXWrite)] == c
                && indexTXWrite == Slot(old(indexTXWrite), 1, BUFFER_SIZE_TX)
                && countTX == old(countTX) + 1 && overflowTX == old(overflowTX)
      ensures old(countTX) == BUFFER_SIZE_TX ==>
                r == -1 && overflowTX && unchanged(bufferTX)
                && countTX == old(countTX) && indexTXWrite == old(indexTXWrite)
    {
      if countTX < BUFFER_SIZE_TX {
        WindowPush(bufferTX[..], indexTXRead, countTX, c);
        bufferTX[indexTXWrite] := c;
        indexTXWrite := indexTXWrite + 1;
        if indexTXWrite == BUFFER_SIZE_TX {
          indexTXWrite := 0;
        }
        countTX := countTX + 1;
      } else {
        overflowTX := true;
        return -1;
      }
      return 1;
    }

    /** The firmware's `while (uart_putchar(buf, c) == -1);`.  The spin ends
        because the interrupt handler drains the ring: on a full ring the
        failed attempt sets the overflow flag, the handler moves the oldest
        byte to the hardware FIFO, and the retry succeeds.  With a free slot
        the byte is simply queued. */
    method PutCharBlocking(c: byte)
      requires Valid()
      modifies this`indexTXRead, this`indexTXWrite, this`countTX, this`overflowTX, this`txSent, bufferTX
      ensures Valid()
      ensures TxStream() == old(TxStream()) + [c]
      ensures overflowTX == (old(overflowTX) || old(countTX) == BUFFER_SIZE_TX)
      ensures old(countTX) < BUFFER_SIZE_TX ==>
                TxContents() == old(TxContents()) + [c] && countTX == old(countTX) + 1
      ensures old(countTX) == BUFFER_SIZE_TX ==> countTX == BUFFER_SIZE_TX
    {
      var r := PutChar(c);
      if r == -1 {
        var sent := TransmitToFifo(true, 1);
        r := PutChar(c);
      }
    }

    /** `get_tx_count`. */
    method GetTxCount() returns (n: int)
      requires Valid()
      ensures n == |TxContents()| && 0 <= n <= BUFFER_SIZE_TX
    {
      n := countTX;
    }

    /** `get_rx_count`. */
    method GetRxCount() returns (n: int)
      requires Valid()
      ensures n == |RxContents()| && 0 <= n <= BUFFER_SIZE_RX
    {
      n := countRX;
    }

    /** `uart_print`: send a NUL-terminated string, each byte with the
        blocking put. */
    method Print(str: seq<byte>)
      requires Valid()
      modifies this`indexTXRead, this`indexTXWrite, this`countTX, this`overflowTX, this`txSent, bufferTX
      ensures Valid()
      ensures TxStream() == old(TxStream()) + CString(str)
      ensures countTX == QueuedAfter(old(countTX), |CString(str)|)
      ensures overflowTX == (old(overflowTX) || old(TxRoom()) < |CString(str)|)
    {
      var i := 0;
      while i < |str| && str[i] != NUL
        invariant Valid()
        invariant i <= NulIndex(str)
        invariant TxStream() == old(TxStream()) + str[..i]
        invariant countTX == QueuedAfter(old(countTX), i)
        invariant overflowTX == (old(overflowTX) || BUFFER_SIZE_TX - old(countTX) < i)
      {
        PutCharBlocking(str[i]);
        assert str[..i + 1] == str[..i] + [str[i]];
        i := i + 1;
      }
    }

    /** `uart_print_int`: decimal text of `val`, a leading '-' only when
        `isSigned`; the digits are generated backwards into a 12-byte
        buffer and then printed. */
    method PrintInt(val: int32, isSigned: bool)
      requires Valid()
      modifies this`indexTXRead, this`indexTXWrite, this`countTX, this`overflowTX, this`txSent, bufferTX
      ensures Valid()
      ensures TxStream() == old(TxStream()) + IntText(val, isSigned)
      ensures old(overflowTX) ==> overflowTX
    {
      if val < 0 && isSigned {
        PrintSigned(Negate32(val));
      } else {
        PrintBody(val);
      }
    }

    /** The negative branch of `uart_print_int`: the '-' and then the
        digits of the negated value. */
    method PrintSigned(magnitude: int32)
      requires Valid()
      modifies this`indexTXRead, this`indexTXWrite, this`countTX, this`overflowTX, this`txSent, bufferTX
      ensures Valid()
      ensures TxStream() == old(TxStream()) + ([MINUS] + IntBody(magnitude))
      ensures old(overflowTX) ==> overflowTX
    {
      PutCharBlocking(MINUS);
      PrintBody(magnitude);
    }

    /** The digits of `uart_print_int` once the sign is dealt with: '0' for
        zero, the generated digits for a positive value, and the empty
        string (the digit loop never runs) for a negative one. */
    method PrintBody(v: int32)
      requires Valid()
      modifies this`indexTXRead, this`indexTXWrite, this`countTX, this`overflowTX, this`txSent, bufferTX
      ensures Valid()
      ensures TxStream() == old(TxStream()) + IntBody(v)
      ensures old(overflowTX) ==> overflowTX
    {
      if v == 0 {
        PutCharBlocking(ZERO);
      } else if v > 0 {
        PrintDigits(v);
      } else {
        Print([NUL]);
      }
    }

    /** The positive case of `uart_print_int`: generate the digits, then
        print the buffer from the first digit on. */
    method PrintDigits(v: int32)
      requires Valid() && v > 0
      modifies this`indexTXRead, this`indexTXWrite, this`countTX, this`overflowTX, this`txSent, bufferTX
      ensures Valid()
      ensures TxStream() == old(TxStream()) + Digits(v)
      ensures old(overflowTX) ==> overflowTX
    {
      var str, ptr := DigitsBackwards(v);
      CStringOfTerminated(Digits(v));
      Print(str[ptr..]);
    }

    /** The digit loop of `uart_print_int`: a 12-byte buffer filled from its
        end, least significant digit first, behind a NUL terminator. */
    static method DigitsBackwards(val: int32) returns (str: array<byte>, ptr: nat)
      requires val > 0
      ensures fresh(str) && str.Length == 12 && ptr <= 11
      ensures str[ptr..] == Digits(val) + [NUL]
    {
      str := new byte[12];
      ptr := 11;
      str[ptr] := NUL;
      var v: int := val;
      assert Pow10(10) == 10000000000;
      DigitsLength(val, 10);
      while v > 0
        invariant 1 <= ptr <= 11 && 0 <= v
        invariant str[11] == NUL
        invariant v > 0 ==> Digits(v) + str[ptr..11] == Digits(val)
        invariant v == 0 ==> str[ptr..11] == Digits(val)
      {
        ghost var tail := str[ptr..11];
        assert |Digits(v)| + |tail| <= 10;
        ptr := ptr - 1;
        var d: byte := ZERO + v % 10;
        str[ptr] := d;
        assert str[ptr + 1..11] == tail;
        assert str[ptr..11] == [d] + tail;
        DigitsPrepend(v, tail, val);
        v := v / 10;
      }
      assert str[11..] == [NUL];
      assert str[ptr..] == str[ptr..11] + str[11..];
    }

    /** RX half of `InterruptHandler_UART`, one bounded pass: store FIFO
        bytes while the ring has room.  When the ring is full the handler
        reads nothing more and sets `overflowRX` only if the hardware
        reported its RX FIFO full.  Returns the bytes left in the FIFO. */
    method ReceiveFromFifo(fifo: seq<byte>, rxFifoFull: bool) returns (rest: seq<byte>)
      requires Valid()
      modifies this`indexRXWrite, this`countRX, this`overflowRX, bufferRX
      ensures Valid()
      ensures var n := if |fifo| <= BUFFER_SIZE_RX - old(countRX)
                       then |fifo| else BUFFER_SIZE_RX - old(countRX);
              && rest == fifo[n..]
              && RxContents() == old(RxContents()) + fifo[..n]
              && countRX == old(countRX) + n
      ensures overflowRX == (old(overflowRX) || (countRX == BUFFER_SIZE_RX && rest != [] && rxFifoFull))
    {
      ghost var rx0, count0 := RxContents(), countRX;
      ghost var k: nat := 0;
      rest := fifo;
      while rest != [] && countRX < BUFFER_SIZE_RX
        invariant Valid()
        invariant k <= |fifo| && rest == fifo[k..]
        invariant countRX == count0 + k && RxContents() == rx0 + fifo[..k]
        invariant overflowRX == old(overflowRX)
      {
        var c := rest[0];
        StoreNext(c, fifo, rx0, count0, k);
        rest := rest[1..];
        k := k + 1;
      }
      if rest != [] && rxFifoFull {
        overflowRX := true;
      }
    }

    /** The byte `c` after the first `k` of `fifo`, stored behind the `k`
        already stored. */
    method StoreNext(c: byte, ghost fifo: seq<byte>, ghost rx0: seq<byte>, ghost count0: nat, ghost k: nat)
      requires Valid() && countRX < BUFFER_SIZE_RX && k < |fifo| && c == fifo[k]
      requires countRX == count0 + k && RxContents() == rx0 + fifo[..k]
      modifies this`indexRXWrite, this`countRX, bufferRX
      ensures Valid()
      ensures countRX == count0 + k + 1 && RxContents() == rx0 + fifo[..k + 1]
    {
      StoreOne(c);
      assert fifo[..k + 1] == fifo[..k] + [c];
    }

    /** One pass of the RX loop of `InterruptHandler_UART` with room in the
        ring: the byte read from the FIFO is stored at the write index. */
    method StoreOne(c: byte)
      requires Valid() && countRX < BUFFER_SIZE_RX
      modifies this`indexRXWrite, this`countRX, bufferRX
      ensures Valid()
      ensures RxContents() == old(RxContents()) + [c]
      ensures countRX == old(countRX) + 1
    {
      WindowPush(bufferRX[..], indexRXRead, countRX, c);
      bufferRX[indexRXWrite] := c;
      indexRXWrite := indexRXWrite + 1;
      if indexRXWrite == BUFFER_SIZE_RX {
        indexRXWrite := 0;
      }
      countRX := countRX + 1;
    }

    /** TX half of `InterruptHandler_UART`: when the hardware TX FIFO is
        empty, move queued bytes into it while it is not full (modelled by
        `txFifoRoom` free places) and the ring is not empty.  Returns the
        bytes written to the FIFO, in order. */
    method TransmitToFifo(txFifoEmpty: bool, txFifoRoom: nat) returns (sent: seq<byte>)
      requires Valid()
      modifies this`indexTXRead, this`countTX, this`txSent
      ensures Valid()
      ensures txSent == old(txSent) + sent
      ensures TxStream() == old(TxStream())
      ensures var n := if !txFifoEmpty then 0
                       else if txFifoRoom <= old(countTX) then txFifoRoom else old(countTX);
              && sent == old(TxContents())[..n]
              && TxContents() == old(TxContents())[n..]
              && countTX == old(countTX) - n
    {
      sent := [];
      if txFifoEmpty {
        var room: nat := txFifoRoom;
        while room > 0 && countTX > 0
          invariant Valid()
          invariant room <= txFifoRoom
          invariant |sent| == txFifoRoom - room == old(countTX) - countTX
          invariant sent == old(TxContents())[..|sent|]
          invariant TxContents() == old(TxContents())[|sent|..]
          invariant txSent == old(txSent) + sent
        {
          var c := SendOne();
          assert old(TxContents())[..|sent| + 1] == sent + [c];
          sent := sent + [c];
          room := room - 1;
        }
        assert |sent| == (if txFifoRoom <= old(countTX) then txFifoRoom else old(countTX));
      }
      assert old(TxContents()) == sent + TxContents();
    }

    /** One pass of the TX loop of `InterruptHandler_UART`: the oldest
        queued byte goes to the hardware FIFO. */
    method SendOne() returns (c: byte)
      requires Valid() && countTX > 0
      modifies this`indexTXRead, this`countTX, this`txSent
      ensures Valid()
      ensures c == old(TxContents())[0]
      ensures TxContents() == old(TxContents())[1..]
      ensures txSent == old(txSent) + [c]
      ensures countTX == old(countTX) - 1
    {
      WindowPop(bufferTX[..], indexTXRead, countTX);
      c := bufferTX[indexTXRead];
      txSent := txSent + [c];
      indexTXRead := indexTXRead + 1;
      if indexTXRead == BUFFER_SIZE_TX {
        indexTXRead := 0;
      }
      countTX := countTX - 1;
    }

    /** `InterruptHandler_UART` as one atomic step: the RX pass, then the
        TX pass. */
    method InterruptHandler(fifo: seq<byte>, rxFifoFull: bool, txFifoEmpty: bool, txFifoRoom: nat)
      returns (rest: seq<byte>, sent: seq<byte>)
      requires Valid()
      modifies this, bufferRX
      ensures Valid()
      ensures var n := if |fifo| <= BUFFER_SIZE_RX - old(countRX)
                       then |fifo| else BUFFER_SIZE_RX - old(countRX);
              rest == fifo[n..] && RxContents() == old(RxContents()) + fifo[..n]
      ensures var m := if !txFifoEmpty then 0
                       else if txFifoRoom <= old(countTX) then txFifoRoom else old(countTX);
              sent == old(TxContents())[..m] && TxContents() == old(TxContents())[m..]
      ensures TxStream() == old(TxStream())
      ensures overflowRX == (old(overflowRX) || (countRX == BUFFER_SIZE_RX && rest != [] && rxFifoFull))
      ensures overflowTX == old(overflowTX)
    {
      rest := ReceiveFromFifo(fifo, rxFifoFull);
      sent := TransmitToFifo(txFifoEmpty, txFifoRoom);
    }
  }
}
