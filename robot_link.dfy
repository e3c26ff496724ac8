/** The robot channel as `ProcessSerial3PI` in `ultrasound.c` reads it.
    The platform interleaves two kinds of traffic: debug text lines that
    start with '#' and end with '\n', which are copied into a 128-byte
    buffer and forwarded to the PC, and one-byte responses, two of which
    carry data.  These functions are the reference the controller's method
    is proved against. */
module RobotLink {
  import opened Bytes
  import opened Uart
  import opened HostProtocol
  import MobPlat

  const PLATFORM_RESP_NONE: int := -1
  const PLATFORM_RESP_OK: byte := 0x01
  const PLATFORM_RESP_ERR: byte := 0x02
  const PLATFORM_RESP_POS: byte := 0x03
  const PLATFORM_RESP_BTN: byte := 0x04

  const MP_DEBUG_BUF_SIZE: nat := 128
  /** The last index that still stores a character; the final slot is
      kept for the terminating NUL. */
  const MP_DEBUG_LAST: nat := MP_DEBUG_BUF_SIZE - 1

  /** `struct POSITION`. */
  datatype Position = Position(x: int16, y: int16, theta: int16)

  /** The link globals: the pending response (`mpResponse`), the parsing
      flag (`mpDebugParse`), the buffer index (`mpDebugIndex`) and the
      buffer (`mpDebugBuf`). */
  datatype Link = Link(response: int, parsing: bool, index: nat, buf: seq<byte>)

  predicate LinkValid(l: Link) {
    && (l.response == PLATFORM_RESP_NONE || 0 <= l.response < 0x100)
    && l.index <= MP_DEBUG_LAST
    && |l.buf| == MP_DEBUG_BUF_SIZE
  }

  /** The next byte `uart_getchar` returns from `rx`. */
  function Next(rx: seq<byte>): int {
    if rx == [] then PLATFORM_RESP_NONE else rx[0]
  }

  /** The outcome of the strip loop: the link after it, the bytes it took
      from the RX ring and the text it printed on the PC channel. */
  datatype Stripped = Stripped(link: Link, consumed: nat, printed: seq<Piece>)

  /** The forwarded form of a debug line held in `buf`. */
  function LineText(enabled: bool, buf: seq<byte>): seq<Piece> {
    if enabled then DebugText(true, "3PI: ", false) + [Buffer(buf), Char(NEWLINE)] else []
  }

  /** The strip loop, entered with `l.response` already read.  A '#'
      outside a line starts one; a '\n' inside a line ends it: the line is
      terminated, forwarded when debugging is on, and the byte after it is
      read and handed on as a response without further inspection.  Any
      other byte inside a line is stored; any other byte outside one is a
      response. */
  function StripLoop(l: Link, rx: seq<byte>, enabled: bool): (r: Stripped)
    requires LinkValid(l)
    ensures LinkValid(r.link) && r.consumed <= |rx|
    decreases |rx|, 1
  {
    if l.response == PLATFORM_RESP_NONE then Stripped(l, 0, [])
    else if !l.parsing && l.response == HASH then StoreAndRead(l.(parsing := true, index := 0), rx, enabled)
    else if l.parsing && l.response == NEWLINE then
      var buf := l.buf[l.index := NUL];
      Stripped(Link(Next(rx), false, l.index, buf), if rx == [] then 0 else 1, LineText(enabled, buf))
    else if l.parsing then StoreAndRead(l, rx, enabled)
    else Stripped(l, 0, [])
  }

  /** Store the current byte while there is room, then read the next. */
  function StoreAndRead(l: Link, rx: seq<byte>, enabled: bool): (r: Stripped)
    requires LinkValid(l) && l.parsing && l.response != PLATFORM_RESP_NONE
    ensures LinkValid(r.link) && r.consumed <= |rx|
    decreases |rx|, 0
  {
    var stored := if l.index < MP_DEBUG_LAST then l.(buf := l.buf[l.index := l.response], index := l.index + 1) else l;
    if rx == [] then Stripped(stored.(response := PLATFORM_RESP_NONE), 0, [])
    else
      var r := StripLoop(stored.(response := rx[0]), rx[1..], enabled);
      Stripped(r.link, r.consumed + 1, r.printed)
  }

  /** The outcome of one pass of the strip loop's body: whether the loop
      goes on, the link after the pass, the bytes it took and the text it
      printed. */
  datatype Pass = Pass(more: bool, link: Link, consumed: nat, printed: seq<Piece>)

  /** One pass of the strip loop's body on the pending byte `l.response`.
      A '#' outside a line opens one; a byte inside a line, the '#' that
      opened it included, is stored while there is room and the next byte
      read, and the loop goes on.  A '\n' inside a line closes it and the
      byte after it is read; that, and any byte outside a line, ends the
      loop. */
  function StripPass(l: Link, rx: seq<byte>, enabled: bool): (p: Pass)
    requires LinkValid(l) && l.response != PLATFORM_RESP_NONE
    ensures LinkValid(p.link) && p.consumed <= 1 && p.consumed <= |rx|
    ensures p.more ==> p.consumed == (if rx == [] then 0 else 1) && p.link.response == Next(rx) && p.printed == []
  {
    if !l.parsing && l.response == HASH then StoreByte(l.(parsing := true, index := 0), rx)
    else if l.parsing && l.response == NEWLINE then
      var buf := l.buf[l.index := NUL];
      Pass(false, Link(Next(rx), false, l.index, buf), if rx == [] then 0 else 1, LineText(enabled, buf))
    else if l.parsing then StoreByte(l, rx)
    else Pass(false, l, 0, [])
  }

  /** Store the byte `l.response` of a line while there is room, and read
      the next one. */
  function StoreByte(l: Link, rx: seq<byte>): (p: Pass)
    requires LinkValid(l) && 0 <= l.response < 0x100
    ensures LinkValid(p.link) && p.more && p.link.parsing == l.parsing
  {
    var stored := if l.index < MP_DEBUG_LAST then l.(buf := l.buf[l.index := l.response], index := l.index + 1) else l;
    Pass(true, stored.(response := Next(rx)), if rx == [] then 0 else 1, [])
  }

  /** The strip loop is its body's pass, repeated while the pass says the
      loop goes on; the bytes and the text of the passes add up. */
  lemma StripUnfold(l: Link, rx: seq<byte>, enabled: bool)
    requires LinkValid(l) && l.response != PLATFORM_RESP_NONE
    ensures var p := StripPass(l, rx, enabled);
            var r := StripLoop(p.link, rx[p.consumed..], enabled);
            StripLoop(l, rx, enabled)
            == if p.more then Stripped(r.link, p.consumed + r.consumed, r.printed)
               else Stripped(p.link, p.consumed, p.printed)
  {
  }

  /** The part of `s` that fits in the buffer from index `i` on. */
  function Keep(i: nat, s: seq<byte>): (k: seq<byte>)
    requires i <= MP_DEBUG_LAST
    ensures i + |k| <= MP_DEBUG_LAST && k <= s
    ensures |s| <= MP_DEBUG_LAST - i ==> k == s
  {
    if |s| <= MP_DEBUG_LAST - i then s else s[..MP_DEBUG_LAST - i]
  }

  /** `buf` with `s` written from index `i` on. */
  function Stored(buf: seq<byte>, i: nat, s: seq<byte>): (r: seq<byte>)
    requires i + |s| <= |buf|
    ensures |r| == |buf|
  {
    buf[..i] + s + buf[i + |s|..]
  }

  /** One byte inside a line: it is stored while there is room and the
      loop goes on with the next byte. */
  lemma StoreStep(c: byte, i: nat, buf: seq<byte>, rx: seq<byte>, enabled: bool)
    requires |buf| == MP_DEBUG_BUF_SIZE && i <= MP_DEBUG_LAST && c != NEWLINE && rx != []
    ensures var i', buf' := if i < MP_DEBUG_LAST then i + 1 else i, if i < MP_DEBUG_LAST then buf[i := c] else buf;
            var r := StripLoop(Link(rx[0], true, i', buf'), rx[1..], enabled);
            StripLoop(Link(c, true, i, buf), rx, enabled) == Stripped(r.link, r.consumed + 1, r.printed)
  {
  }

  lemma KeepCons(i: nat, c: byte, m: seq<byte>)
    requires i < MP_DEBUG_LAST
    ensures Keep(i, [c] + m) == [c] + Keep(i + 1, m)
  {
    if |m| > MP_DEBUG_LAST - (i + 1) {
      assert ([c] + m)[..MP_DEBUG_LAST - i] == [c] + m[..MP_DEBUG_LAST - (i + 1)];
    }
  }

  lemma StoredCons(buf: seq<byte>, i: nat, c: byte, k: seq<byte>)
    requires i + 1 + |k| <= |buf|
    ensures Stored(buf[i := c], i + 1, k) == Stored(buf, i, [c] + k)
  {
    assert buf[i := c][..i + 1] == buf[..i] + [c];
    assert buf[i := c][i + 1 + |k|..] == buf[i + 1 + |k|..];
  }

  /** Inside a line, the bytes up to the next '\n' are stored as far as
      the buffer reaches, the buffer is terminated after them, and what was
      stored is forwarded. */
  lemma {:induction false} StoreLine(c: byte, i: nat, buf: seq<byte>, m: seq<byte>, tail: seq<byte>, enabled: bool)
    requires |buf| == MP_DEBUG_BUF_SIZE && i <= MP_DEBUG_LAST && c != NEWLINE
    requires forall j :: 0 <= j < |m| ==> m[j] != NEWLINE
    ensures var k := Keep(i, [c] + m);
            var final := Stored(buf, i, k)[i + |k| := NUL];
            StripLoop(Link(c, true, i, buf), m + [NEWLINE] + tail, enabled)
            == Stripped(Link(Next(tail), false, i + |k|, final),
                        |m| + 1 + (if tail == [] then 0 else 1), LineText(enabled, final))
    decreases |m|
  {
    var rx := m + [NEWLINE] + tail;
    var i', buf' := if i < MP_DEBUG_LAST then i + 1 else i, if i < MP_DEBUG_LAST then buf[i := c] else buf;
    var rest := if m == [] then [] else m[1..];
    StoreShift(c, i, buf, m);
    StoreStep(c, i, buf, rx, enabled);
    if m == [] {
      assert rx[0] == NEWLINE && rx[1..] == tail;
      NewlineStep(i', buf', tail, enabled);
      StoredNothing(buf', i');
    } else {
      assert rx[0] == m[0] && rx[1..] == rest + [NEWLINE] + tail;
      assert [m[0]] + rest == m;
      StoreLine(m[0], i', buf', rest, tail, enabled);
    }
  }

  /** Storing `c` moves the line on by one place: what is kept and stored
      from `[c] + m` at `i` is what is kept and stored from `m` after it. */
  lemma StoreShift(c: byte, i: nat, buf: seq<byte>, m: seq<byte>)
    requires |buf| == MP_DEBUG_BUF_SIZE && i <= MP_DEBUG_LAST
    ensures var i', buf' := if i < MP_DEBUG_LAST then i + 1 else i, if i < MP_DEBUG_LAST then buf[i := c] else buf;
            var k, k' := Keep(i, [c] + m), Keep(i', m);
            i' + |k'| == i + |k| && Stored(buf', i', k') == Stored(buf, i, k)
  {
    if i < MP_DEBUG_LAST {
      KeepCons(i, c, m);
      StoredCons(buf, i, c, Keep(i + 1, m));
    } else {
      StoredNothing(buf, i);
    }
  }

  /** Storing nothing leaves the buffer as it was. */
  lemma StoredNothing(buf: seq<byte>, i: nat)
    requires i <= |buf|
    ensures Stored(buf, i, []) == buf
  {
    assert buf[..i] + [] + buf[i..] == buf;
  }

  /** The '\n' that ends a line. */
  lemma NewlineStep(i: nat, buf: seq<byte>, tail: seq<byte>, enabled: bool)
    requires |buf| == MP_DEBUG_BUF_SIZE && i <= MP_DEBUG_LAST
    ensures StripLoop(Link(NEWLINE, true, i, buf), tail, enabled)
         == Stripped(Link(Next(tail), false, i, buf[i := NUL]), if tail == [] then 0 else 1,
                     LineText(enabled, buf[i := NUL]))
  {
  }

  lemma CStringOfPrefix(text: seq<byte>, rest: seq<byte>)
    requires forall j :: 0 <= j < |text| ==> text[j] != NUL
    ensures CString(text + [NUL] + rest) == text
  {
    var s := text + [NUL] + rest;
    assert s[|text|] == NUL;
    assert forall j :: 0 <= j < |text| ==> s[j] == text[j];
    assert s[..|text|] == text;
  }

  /** A debug line from the platform, '#', text without '\n' or NUL, '\n',
      is forwarded to the PC with its '#' when debugging is on, truncated
      to the 127 bytes the buffer holds, and nothing is printed otherwise;
      the byte after the '\n' is read as the next response. */
  lemma ForwardDebugLine(l: Link, m: seq<byte>, tail: seq<byte>, enabled: bool)
    requires LinkValid(l) && !l.parsing
    requires forall j :: 0 <= j < |m| ==> m[j] != NEWLINE && m[j] != NUL
    ensures var line := [HASH] + m;
            var r := StripLoop(l.(response := HASH), m + [NEWLINE] + tail, enabled);
            && r.link.response == Next(tail) && !r.link.parsing
            && r.consumed == |m| + 1 + (if tail == [] then 0 else 1)
            && Render(r.printed)
               == (if enabled then Render(DebugText(true, "3PI: ", false)) + Keep(0, line) + [NEWLINE] else [])
  {
    var rx := m + [NEWLINE] + tail;
    assert StripLoop(l.(response := HASH), rx, enabled) == StripLoop(Link(HASH, true, 0, l.buf), rx, enabled);
    StoreLine(HASH, 0, l.buf, m, tail, enabled);
    var k := Keep(0, [HASH] + m);
    var final := Stored(l.buf, 0, k)[|k| := NUL];
    assert final == k + [NUL] + l.buf[|k| + 1..];
    CStringOfPrefix(k, l.buf[|k| + 1..]);
    LineTextSent(enabled, final);
  }

  /** On the wire a forwarded line is the "3PI: " debug prefix, the
      buffer's text up to its NUL, and a '\n'. */
  lemma LineTextSent(enabled: bool, buf: seq<byte>)
    ensures Render(LineText(enabled, buf))
         == if enabled then Render(DebugText(true, "3PI: ", false)) + CString(buf) + [NEWLINE] else []
  {
    if enabled {
      var tail := [Buffer(buf), Char(NEWLINE)];
      RenderAppend(DebugText(true, "3PI: ", false), tail);
      assert tail[1..][1..] == [];
    }
  }

  // ---------------------------------------------------------------------
  // Responses

  /** What the response switch did: the response left pending, the
      position, the bytes taken and the text printed. */
  datatype Dispatched = Dispatched(response: int, pos: Position, consumed: nat, printed: seq<Piece>)

  /** The debug report of a position update: X and Y signed, Theta
      printed unsigned. */
  function PositionText(p: Position): seq<Piece> {
    DebugText(true, "3PI POS UPDATE: ", false)
    + [Int(p.x, true), Char(COMMA)] + [Int(p.y, true), Char(COMMA)] + [Int(p.theta, false), Char(NEWLINE)]
  }

  /** The response switch.  A position update waits for its six data
      bytes and a button press for its one, keeping the response pending;
      every other byte, a response code or not, is done with. */
  function Dispatch(response: int, rx: seq<byte>, enabled: bool, pos: Position): (d: Dispatched)
    ensures d.consumed <= |rx|
    ensures d.response == PLATFORM_RESP_NONE || d.response == response
  {
    if response == PLATFORM_RESP_NONE then Dispatched(PLATFORM_RESP_NONE, pos, 0, [])
    else if response == PLATFORM_RESP_OK then
      Dispatched(PLATFORM_RESP_NONE, pos, 0, DebugText(enabled, "3PI CMD OK", true))
    else if response == PLATFORM_RESP_ERR then
      Dispatched(PLATFORM_RESP_NONE, pos, 0, DebugText(enabled, "3PI CMD ERROR", true))
    else if response == PLATFORM_RESP_POS then PositionResponse(rx, enabled, pos)
    else if response == PLATFORM_RESP_BTN then ButtonResponse(rx, enabled, pos)
    else Dispatched(PLATFORM_RESP_NONE, pos, 0, [])
  }

  /** A position update: six data bytes, three little-endian `short`s. */
  function PositionResponse(rx: seq<byte>, enabled: bool, pos: Position): (d: Dispatched)
    ensures d.consumed <= |rx|
  {
    if |rx| < 6 then Dispatched(PLATFORM_RESP_POS, pos, 0, [])
    else
      var p := Position(ToInt16(Le16(rx[0], rx[1])), ToInt16(Le16(rx[2], rx[3])), ToInt16(Le16(rx[4], rx[5])));
      Dispatched(PLATFORM_RESP_NONE, p, 6, if enabled then PositionText(p) else [])
  }

  /** A button press: one data byte, read as a signed `char` and echoed
      as the character `'0' + data`. */
  function ButtonResponse(rx: seq<byte>, enabled: bool, pos: Position): (d: Dispatched)
    ensures d.consumed <= |rx|
  {
    if |rx| < 1 then Dispatched(PLATFORM_RESP_BTN, pos, 0, [])
    else
      Dispatched(PLATFORM_RESP_NONE, pos, 1,
                 if enabled then DebugText(true, "3PI BTN PRESS: ", false) + [Char((ZERO + ToInt8(rx[0])) % 0x100), Char(NEWLINE)]
                 else [])
  }

  /** A position update carrying the coordinates in the layout the
      controller uses to send one (`mpSetPos`) sets exactly that
      position. */
  lemma PositionUpdate(x: int16, y: int16, theta: int16, rest: seq<byte>, enabled: bool, pos: Position)
    ensures var data := MobPlat.Encode(MobPlat.SetPos(x, y, theta))[1..] + rest;
            Dispatch(PLATFORM_RESP_POS, data, enabled, pos).pos == Position(x, y, theta)
            && Dispatch(PLATFORM_RESP_POS, data, enabled, pos).consumed == 6
  {
    var data := MobPlat.Encode(MobPlat.SetPos(x, y, theta))[1..] + rest;
    var bx, bY, bt := Le16Bytes(MobPlat.ToU16(x)), Le16Bytes(MobPlat.ToU16(y)), Le16Bytes(MobPlat.ToU16(theta));
    assert data[..6] == bx + bY + bt;
    assert data[0] == bx[0] && data[1] == bx[1];
    assert data[2] == bY[0] && data[3] == bY[1];
    assert data[4] == bt[0] && data[5] == bt[1];
  }

  /** A negative heading is printed as an unsigned value, which
      `uart_print_int` renders as no text at all. */
  lemma NegativeThetaVanishes(x: int16, y: int16, theta: int16)
    requires theta < 0
    ensures Render(PositionText(Position(x, y, theta)))
         == Render(DebugText(true, "3PI POS UPDATE: ", false)) + (IntText(x, true) + [COMMA])
            + (IntText(y, true) + [COMMA]) + [NEWLINE]
  {
    PositionTextSent(Position(x, y, theta));
    IntTextMeaning(theta, false);
  }

  /** On the wire a position report is the debug prefix, then X and Y in
      signed decimal and Theta in unsigned decimal, separated by commas,
      then a '\n'. */
  lemma PositionTextSent(p: Position)
    ensures Render(PositionText(p))
         == Render(DebugText(true, "3PI POS UPDATE: ", false)) + (IntText(p.x, true) + [COMMA])
            + (IntText(p.y, true) + [COMMA]) + (IntText(p.theta, false) + [NEWLINE])
  {
    var d := DebugText(true, "3PI POS UPDATE: ", false);
    var a, b, c := [Int(p.x, true), Char(COMMA)], [Int(p.y, true), Char(COMMA)], [Int(p.theta, false), Char(NEWLINE)];
    RenderAppend(d + a + b, c);
    RenderAppend(d + a, b);
    RenderAppend(d, a);
    RenderPair(Int(p.x, true), Char(COMMA));
    RenderPair(Int(p.y, true), Char(COMMA));
    RenderPair(Int(p.theta, false), Char(NEWLINE));
  }


  // ---------------------------------------------------------------------
  // One poll

  /** The outcome of one `ProcessSerial3PI` call. */
  datatype Polled = Polled(link: Link, pos: Position, consumed: nat, printed: seq<Piece>)

  /** One poll: read a byte unless a response is pending, then the strip
      loop and the response switch. */
  function Poll3PI(l: Link, rx: seq<byte>, enabled: bool, pos: Position): (r: Polled)
    requires LinkValid(l)
    ensures LinkValid(r.link) && r.consumed <= |rx|
  {
    var k0 := if l.response == PLATFORM_RESP_NONE && rx != [] then 1 else 0;
    var first := if l.response == PLATFORM_RESP_NONE then Next(rx) else l.response;
    var r := StripThenDispatch(l.(response := first), rx[k0..], enabled, pos);
    Polled(r.link, r.pos, k0 + r.consumed, r.printed)
  }

  /** A poll with no response pending reads one byte, when there is one,
      before the strip loop. */
  lemma PollFirst(l: Link, rx: seq<byte>, enabled: bool, pos: Position)
    requires LinkValid(l) && l.response == PLATFORM_RESP_NONE
    ensures var k0 := if rx == [] then 0 else 1;
            var r := StripThenDispatch(l.(response := Next(rx)), rx[k0..], enabled, pos);
            Poll3PI(l, rx, enabled, pos) == Polled(r.link, r.pos, k0 + r.consumed, r.printed)
  {
  }

  /** The strip loop, then the response switch on the response it leaves
      and the bytes after the ones it took. */
  function StripThenDispatch(l: Link, rx: seq<byte>, enabled: bool, pos: Position): (r: Polled)
    requires LinkValid(l)
    ensures LinkValid(r.link) && r.consumed <= |rx|
  {
    AfterStrip(StripLoop(l, rx, enabled), rx, enabled, pos)
  }

  /** The response switch after a strip loop with outcome `s` on `rx`. */
  function AfterStrip(s: Stripped, rx: seq<byte>, enabled: bool, pos: Position): (r: Polled)
    requires LinkValid(s.link) && s.consumed <= |rx|
    ensures LinkValid(r.link) && s.consumed <= r.consumed <= |rx|
  {
    var d := Dispatch(s.link.response, rx[s.consumed..], enabled, pos);
    Polled(s.link.(response := d.response), d.pos, s.consumed + d.consumed, s.printed + d.printed)
  }

  /** A '#' right after a debug line's '\n' is read as a response, not as
      the start of a line, and is dropped: the second line is not
      forwarded, its text is left to be read as responses. */
  lemma HashAfterLineDropped(l: Link, m: seq<byte>, tail: seq<byte>, enabled: bool, pos: Position)
    requires LinkValid(l) && !l.parsing && l.response == PLATFORM_RESP_NONE
    requires forall j :: 0 <= j < |m| ==> m[j] != NEWLINE && m[j] != NUL
    ensures var r := Poll3PI(l, [HASH] + m + [NEWLINE, HASH] + tail, enabled, pos);
            && r.consumed == |m| + 3
            && r.link.response == PLATFORM_RESP_NONE && !r.link.parsing
            && Render(r.printed)
               == (if enabled then Render(DebugText(true, "3PI: ", false)) + Keep(0, [HASH] + m) + [NEWLINE] else [])
  {
    var rx := [HASH] + m + [NEWLINE, HASH] + tail;
    assert rx[1..] == m + [NEWLINE] + ([HASH] + tail);
    ForwardDebugLine(l, m, [HASH] + tail, enabled);
    var st := StripLoop(l.(response := HASH), rx[1..], enabled);
    assert st.link.response == HASH;
    var r := AfterStrip(st, rx[1..], enabled, pos);
    assert r == Polled(st.link.(response := PLATFORM_RESP_NONE), pos, st.consumed, st.printed + []);
    assert Poll3PI(l, rx, enabled, pos) == Polled(r.link, r.pos, 1 + r.consumed, r.printed);
    assert st.printed + [] == st.printed;
  }

  /** A run of line bytes without '\n': they are stored as far as the
      buffer reaches, and the loop is then where a loop entered with the
      byte after them would be.  When nothing follows, the loop ends still
      inside the line with no response, having printed nothing. */
  lemma {:induction false} StripResume(c: byte, i: nat, buf: seq<byte>, m: seq<byte>, rest: seq<byte>, enabled: bool)
    requires |buf| == MP_DEBUG_BUF_SIZE && i <= MP_DEBUG_LAST && c != NEWLINE
    requires forall j :: 0 <= j < |m| ==> m[j] != NEWLINE
    ensures var k := Keep(i, [c] + m);
            var r := StripLoop(Link(Next(rest), true, i + |k|, Stored(buf, i, k)), if rest == [] then [] else rest[1..], enabled);
            StripLoop(Link(c, true, i, buf), m + rest, enabled)
            == Stripped(r.link, |m| + (if rest == [] then 0 else 1) + r.consumed, r.printed)
    decreases |m|
  {
    if m == [] {
      assert m + rest == rest && [c] + m == [c];
      StripLast(c, i, buf, rest, enabled);
    } else {
      var i', buf' := if i < MP_DEBUG_LAST then i + 1 else i, if i < MP_DEBUG_LAST then buf[i := c] else buf;
      StoreShift(c, i, buf, m);
      var rx := m + rest;
      StoreStep(c, i, buf, rx, enabled);
      assert rx[0] == m[0] && rx[1..] == m[1..] + rest;
      assert [m[0]] + m[1..] == m;
      StripResume(m[0], i', buf', m[1..], rest, enabled);
    }
  }

  /** The last byte of a run inside a line: it is stored while there is
      room, and the loop goes on with the byte after it, if any. */
  lemma StripLast(c: byte, i: nat, buf: seq<byte>, rest: seq<byte>, enabled: bool)
    requires |buf| == MP_DEBUG_BUF_SIZE && i <= MP_DEBUG_LAST && c != NEWLINE
    ensures var k := Keep(i, [c]);
            var r := StripLoop(Link(Next(rest), true, i + |k|, Stored(buf, i, k)), if rest == [] then [] else rest[1..], enabled);
            StripLoop(Link(c, true, i, buf), rest, enabled)
            == Stripped(r.link, (if rest == [] then 0 else 1) + r.consumed, r.printed)
  {
    var i', buf' := if i < MP_DEBUG_LAST then i + 1 else i, if i < MP_DEBUG_LAST then buf[i := c] else buf;
    StoreShift(c, i, buf, []);
    assert [c] + [] == [c];
    StoredNothing(buf', i');
    if rest != [] {
      StoreStep(c, i, buf, rest, enabled);
    }
  }

  /** A poll inside a line whose bytes so far contain no '\n' takes them
      all, stores them as far as the buffer reaches, keeps parsing with no
      response pending, prints nothing and leaves the position alone: the
      next poll carries on with the line. */
  lemma DryPoll(i: nat, buf: seq<byte>, rx: seq<byte>, enabled: bool, pos: Position)
    requires |buf| == MP_DEBUG_BUF_SIZE && i <= MP_DEBUG_LAST
    requires forall j :: 0 <= j < |rx| ==> rx[j] != NEWLINE
    ensures var k := Keep(i, rx);
            Poll3PI(Link(PLATFORM_RESP_NONE, true, i, buf), rx, enabled, pos)
            == Polled(Link(PLATFORM_RESP_NONE, true, i + |k|, Stored(buf, i, k)), pos, |rx|, [])
  {
    if rx == [] {
      StoredNothing(buf, i);
    } else {
      StripResume(rx[0], i, buf, rx[1..], [], enabled);
      assert [rx[0]] + rx[1..] == rx && rx[1..] + [] == rx[1..];
    }
  }

  /** A poll with no response pending, as the strip loop and switch on
      the bytes after the one it reads first. */
  lemma PollUnfold(l: Link, rx: seq<byte>, enabled: bool, pos: Position)
    requires LinkValid(l) && l.response == PLATFORM_RESP_NONE
    ensures var after := if rx == [] then [] else rx[1..];
            var a := AfterStrip(StripLoop(l.(response := Next(rx)), after, enabled), after, enabled, pos);
            Poll3PI(l, rx, enabled, pos) == Polled(a.link, a.pos, (if rx == [] then 0 else 1) + a.consumed, a.printed)
  {
  }

  /** A poll inside a line over the rest of the line, its '\n' and what
      follows: the line's bytes are stored as far as the buffer reaches,
      the buffer is terminated and forwarded, and the byte after the '\n'
      goes through the response switch. */
  lemma PollLine(i: nat, buf: seq<byte>, m: seq<byte>, tail: seq<byte>, enabled: bool, pos: Position)
    requires |buf| == MP_DEBUG_BUF_SIZE && i <= MP_DEBUG_LAST
    requires forall j :: 0 <= j < |m| ==> m[j] != NEWLINE
    ensures var k := Keep(i, m);
            var final := Stored(buf, i, k)[i + |k| := NUL];
            var d := Dispatch(Next(tail), if tail == [] then [] else tail[1..], enabled, pos);
            Poll3PI(Link(PLATFORM_RESP_NONE, true, i, buf), m + [NEWLINE] + tail, enabled, pos)
            == Polled(Link(d.response, false, i + |k|, final), d.pos,
                      |m| + 1 + (if tail == [] then 0 else 1) + d.consumed, LineText(enabled, final) + d.printed)
  {
    var rx := m + [NEWLINE] + tail;
    var after := if tail == [] then [] else tail[1..];
    var k := Keep(i, m);
    var final := Stored(buf, i, k)[i + |k| := NUL];
    StripLine(i, buf, m, tail, enabled);
    PollUnfold(Link(PLATFORM_RESP_NONE, true, i, buf), rx, enabled, pos);
    assert rx[1..][|m| + (if tail == [] then 0 else 1)..] == after;
  }

  /** The strip loop of `PollLine`, entered with the line's first byte
      (or its '\n') read. */
  lemma StripLine(i: nat, buf: seq<byte>, m: seq<byte>, tail: seq<byte>, enabled: bool)
    requires |buf| == MP_DEBUG_BUF_SIZE && i <= MP_DEBUG_LAST
    requires forall j :: 0 <= j < |m| ==> m[j] != NEWLINE
    ensures var rx := m + [NEWLINE] + tail;
            var k := Keep(i, m);
            var final := Stored(buf, i, k)[i + |k| := NUL];
            StripLoop(Link(rx[0], true, i, buf), rx[1..], enabled)
            == Stripped(Link(Next(tail), false, i + |k|, final), |m| + (if tail == [] then 0 else 1), LineText(enabled, final))
  {
    var rx := m + [NEWLINE] + tail;
    if m == [] {
      assert rx[0] == NEWLINE && rx[1..] == tail;
      NewlineStep(i, buf, tail, enabled);
      StoredNothing(buf, i);
    } else {
      assert rx[0] == m[0] && rx[1..] == m[1..] + [NEWLINE] + tail;
      assert [m[0]] + m[1..] == m;
      StoreLine(m[0], i, buf, m[1..], tail, enabled);
    }
  }

  /** A line that arrives over two polls, the first running dry before the
      '\n', ends as the joined line would in one poll: both parts stored
      as far as the buffer reaches, terminated and forwarded, and the byte
      after the '\n' dispatched. */
  lemma SplitLine(i: nat, buf: seq<byte>, m1: seq<byte>, m2: seq<byte>, tail: seq<byte>, enabled: bool, pos: Position)
    requires |buf| == MP_DEBUG_BUF_SIZE && i <= MP_DEBUG_LAST
    requires forall j :: 0 <= j < |m1| ==> m1[j] != NEWLINE
    requires forall j :: 0 <= j < |m2| ==> m2[j] != NEWLINE
    ensures var k := Keep(i, m1 + m2);
            var final := Stored(buf, i, k)[i + |k| := NUL];
            var d := Dispatch(Next(tail), if tail == [] then [] else tail[1..], enabled, pos);
            var r1 := Poll3PI(Link(PLATFORM_RESP_NONE, true, i, buf), m1, enabled, pos);
            var r2 := Poll3PI(r1.link, m2 + [NEWLINE] + tail, enabled, r1.pos);
            && r1.printed == []
            && r2 == Polled(Link(d.response, false, i + |k|, final), d.pos,
                            |m2| + 1 + (if tail == [] then 0 else 1) + d.consumed, LineText(enabled, final) + d.printed)
  {
    DryPoll(i, buf, m1, enabled, pos);
    LineAfterDry(i, buf, m1, m2, tail, enabled, pos);
  }

  /** The second poll of `SplitLine`, from the link the dry poll left. */
  lemma LineAfterDry(i: nat, buf: seq<byte>, m1: seq<byte>, m2: seq<byte>, tail: seq<byte>, enabled: bool, pos: Position)
    requires |buf| == MP_DEBUG_BUF_SIZE && i <= MP_DEBUG_LAST
    requires forall j :: 0 <= j < |m2| ==> m2[j] != NEWLINE
    ensures var k1 := Keep(i, m1);
            var k := Keep(i, m1 + m2);
            var final := Stored(buf, i, k)[i + |k| := NUL];
            var d := Dispatch(Next(tail), if tail == [] then [] else tail[1..], enabled, pos);
            Poll3PI(Link(PLATFORM_RESP_NONE, true, i + |k1|, Stored(buf, i, k1)), m2 + [NEWLINE] + tail, enabled, pos)
            == Polled(Link(d.response, false, i + |k|, final), d.pos,
                      |m2| + 1 + (if tail == [] then 0 else 1) + d.consumed, LineText(enabled, final) + d.printed)
  {
    var k1 := Keep(i, m1);
    PollLine(i + |k1|, Stored(buf, i, k1), m2, tail, enabled, pos);
    KeepJoin(i, buf, m1, m2);
  }

  /** Storing a line in two parts, the second from where the first
      stopped, stores what storing it whole would. */
  lemma KeepJoin(i: nat, buf: seq<byte>, m1: seq<byte>, m2: seq<byte>)
    requires |buf| == MP_DEBUG_BUF_SIZE && i <= MP_DEBUG_LAST
    ensures var k1 := Keep(i, m1);
            var k2 := Keep(i + |k1|, m2);
            var k := Keep(i, m1 + m2);
            i + |k1| + |k2| == i + |k| && Stored(Stored(buf, i, k1), i + |k1|, k2) == Stored(buf, i, k)
  {
    KeepSplit(i, m1, m2);
    var k1 := Keep(i, m1);
    StoredSplit(buf, i, k1, Keep(i + |k1|, m2));
  }

  /** What fits of a joined line is what fits of its first part, then
      what fits of the second in the slots left. */
  lemma KeepSplit(i: nat, m1: seq<byte>, m2: seq<byte>)
    requires i <= MP_DEBUG_LAST
    ensures var k1 := Keep(i, m1);
            Keep(i, m1 + m2) == k1 + Keep(i + |k1|, m2)
  {
    var room := MP_DEBUG_LAST - i;
    if |m1| >= room {
      assert Keep(i + room, m2) == [];
      assert (m1 + m2)[..room] == m1[..room];
    } else if |m1 + m2| > room {
      assert (m1 + m2)[..room] == m1 + m2[..room - |m1|];
    }
  }

  /** Writing `a` and then `b` right after it is writing `a + b`. */
  lemma StoredSplit(buf: seq<byte>, i: nat, a: seq<byte>, b: seq<byte>)
    requires i + |a| + |b| <= |buf|
    ensures Stored(Stored(buf, i, a), i + |a|, b) == Stored(buf, i, a + b)
  {
    var s1 := Stored(buf, i, a);
    assert s1[..i + |a|] == buf[..i] + a;
    assert s1[i + |a| + |b|..] == buf[i + |a| + |b|..];
  }

}
