/** The binary frames `ProcessUSArray` in `ultrasound.c` sends to the PC
    after a scan: a start marker, two bytes per item, an end marker.  Each
    item packs a 4-bit tag and a 12-bit value: the tag is the sensor number
    for waveform samples and the position in the sensor list for ranges. */
module Telemetry {
  import opened Bytes
  import opened UsArray
  import opened HostProtocol

  const FRAME_START: seq<byte> := [0xFF, 0xFF]
  const FRAME_END: seq<byte> := [0x7F, 0xFF]

  /** The two bytes of an item: bits 8-11 of `value` in the high nibble of
      the first byte, the low nibble of `tag` in its low nibble, bits 0-7
      of `value` in the second byte.  `value` is taken as the 16 bits of a
      C `short`, so a negative value contributes its two's-complement
      bits. */
  function Pair(tag: nat, value: int): (p: seq<byte>)
    ensures |p| == 2
  {
    var bits := value % 0x1_0000;
    [((bits / 0x100) % 0x10) * 0x10 + tag % 0x10, bits % 0x100]
  }

  /** How the PC reads an item back: the tag and the 12-bit value. */
  function SplitPair(first: byte, second: byte): (nat, nat) {
    (first % 0x10, (first / 0x10) * 0x100 + second)
  }

  /** An item carries its tag's low nibble and its value's low 12 bits:
      a value that fits 12 bits comes back unchanged, bits 12-15 are lost,
      and a range of -1 arrives as 4095. */
  lemma PairRoundTrip(tag: nat, value: int)
    ensures var p := Pair(tag, value);
            SplitPair(p[0], p[1]) == (tag % 0x10, value % 0x1000)
  {
    var bits := value % 0x1_0000;
    var hi, lo := (bits / 0x100) % 0x10, bits % 0x100;
    assert bits % 0x1000 == hi * 0x100 + lo by {
      var q := bits / 0x100;
      assert bits == (q / 0x10) * 0x1000 + (hi * 0x100 + lo);
      ModOfSum(q / 0x10, hi * 0x100 + lo);
    }
    assert value % 0x1000 == bits % 0x1000 by {
      assert value == 16 * (value / 0x1_0000) * 0x1000 + bits;
      ModOfSum(16 * (value / 0x1_0000), bits);
    }
    var first := hi * 0x10 + tag % 0x10;
    assert first / 0x10 == hi && first % 0x10 == tag % 0x10;
  }

  lemma ModOfSum(k: int, r: int)
    ensures (k * 0x1000 + r) % 0x1000 == r % 0x1000
  {
    assert k * 0x1000 + r == (k + r / 0x1000) * 0x1000 + r % 0x1000;
  }

  /** With a tag below 16 and a value below 4096 the round trip is exact. */
  lemma PairRoundTripExact(tag: nat, value: nat)
    requires tag < 0x10 && value < 0x1000
    ensures var p := Pair(tag, value);
            SplitPair(p[0], p[1]) == (tag, value)
  {
    PairRoundTrip(tag, value);
  }

  /** The first byte of an item with a tag below 10 is never a marker
      byte, so a reader at an item boundary tells the end marker from
      data. */
  lemma FirstByteNotMarker(tag: nat, value: int)
    requires tag < US_SENSOR_COUNT
    ensures Pair(tag, value)[0] != FRAME_START[0] && Pair(tag, value)[0] != FRAME_END[0]
  {
  }

  /** The items of one waveform row: every sample, tagged with the sensor. */
  function RowPairs(sensor: byte, row: seq<u16>): (s: seq<byte>)
    ensures |s| == 2 * |row|
  {
    if row == [] then [] else RowPairs(sensor, row[..|row| - 1]) + Pair(sensor, row[|row| - 1])
  }

  lemma {:induction false} RowPairsAt(sensor: byte, row: seq<u16>, j: nat)
    requires j < |row|
    ensures RowPairs(sensor, row)[2 * j..2 * j + 2] == Pair(sensor, row[j])
    decreases |row|
  {
    var n := |row| - 1;
    var prefix := RowPairs(sensor, row[..n]);
    assert RowPairs(sensor, row) == prefix + Pair(sensor, row[n]);
    if j < n {
      RowPairsAt(sensor, row[..n], j);
      SliceLeft(prefix, Pair(sensor, row[n]), 2 * j, 2 * j + 2);
    } else {
      SliceRight(prefix, Pair(sensor, row[n]));
    }
  }

  /** The waveform body: the rows of the listed sensors in list order. */
  function WaveformBody(rows: seq<seq<u16>>, list: seq<byte>): (s: seq<byte>)
    requires forall i :: 0 <= i < |list| ==> list[i] < |rows|
    requires forall r :: 0 <= r < |rows| ==> |rows[r]| == US_RX_COUNT
    ensures |s| == 2 * US_RX_COUNT * |list|
  {
    if list == [] then []
    else WaveformBody(rows, list[..|list| - 1]) + RowPairs(list[|list| - 1], rows[list[|list| - 1]])
  }

  /** Block `i` of the waveform body holds the row of the `i`-th listed
      sensor, each sample tagged with that sensor's number. */
  lemma {:induction false} WaveformBodyAt(rows: seq<seq<u16>>, list: seq<byte>, i: nat)
    requires forall i :: 0 <= i < |list| ==> list[i] < |rows|
    requires forall r :: 0 <= r < |rows| ==> |rows[r]| == US_RX_COUNT
    requires i < |list|
    ensures var block := 2 * US_RX_COUNT;
            WaveformBody(rows, list)[block * i..block * i + block] == RowPairs(list[i], rows[list[i]])
    decreases |list|
  {
    var block := 2 * US_RX_COUNT;
    var n := |list| - 1;
    var prefix := WaveformBody(rows, list[..n]);
    var whole := WaveformBody(rows, list);
    assert whole == prefix + RowPairs(list[n], rows[list[n]]);
    if i < n {
      WaveformBodyAt(rows, list[..n], i);
      assert list[..n][i] == list[i];
      SliceLeft(prefix, RowPairs(list[n], rows[list[n]]), block * i, block * i + block);
    } else {
      SliceRight(prefix, RowPairs(list[n], rows[list[n]]));
    }
  }

  /** The range body: one item per listed sensor, tagged with its
      position in the list (not its sensor number). */
  function RangeBody(readings: seq<int16>, list: seq<byte>): (s: seq<byte>)
    requires forall i :: 0 <= i < |list| ==> list[i] < |readings|
    ensures |s| == 2 * |list|
  {
    if list == [] then []
    else RangeBody(readings, list[..|list| - 1]) + Pair(|list| - 1, readings[list[|list| - 1]])
  }

  lemma {:induction false} RangeBodyAt(readings: seq<int16>, list: seq<byte>, i: nat)
    requires forall i :: 0 <= i < |list| ==> list[i] < |readings|
    requires i < |list|
    ensures RangeBody(readings, list)[2 * i..2 * i + 2] == Pair(i, readings[list[i]])
    decreases |list|
  {
    var n := |list| - 1;
    var prefix := RangeBody(readings, list[..n]);
    assert RangeBody(readings, list) == prefix + Pair(n, readings[list[n]]);
    if i < n {
      RangeBodyAt(readings, list[..n], i);
      SliceLeft(prefix, Pair(n, readings[list[n]]), 2 * i, 2 * i + 2);
    } else {
      SliceRight(prefix, Pair(n, readings[list[n]]));
    }
  }

  /** The whole output of one scan for output mode `mode`. */
  function Frame(mode: byte, rows: seq<seq<u16>>, readings: seq<int16>, list: seq<byte>): (f: seq<byte>)
    requires forall i :: 0 <= i < |list| ==> list[i] < |rows| && list[i] < |readings|
    requires forall r :: 0 <= r < |rows| ==> |rows[r]| == US_RX_COUNT
  {
    if mode == US_OUTPUT_NONE then [] else FRAME_START + Body(mode, rows, readings, list) + FRAME_END
  }

  /** What goes between the markers: the body of the mode, nothing for a
      mode that has none. */
  function Body(mode: byte, rows: seq<seq<u16>>, readings: seq<int16>, list: seq<byte>): (b: seq<byte>)
    requires forall i :: 0 <= i < |list| ==> list[i] < |rows| && list[i] < |readings|
    requires forall r :: 0 <= r < |rows| ==> |rows[r]| == US_RX_COUNT
  {
    if mode == US_OUTPUT_WAVEFORM then WaveformBody(rows, list)
    else if mode == US_OUTPUT_RANGE then RangeBody(readings, list)
    else []
  }

  /** A range frame is the markers around one item per listed sensor, and
      the PC recovers from item `i` its position `i` and the low 12 bits
      of that sensor's reading. */
  lemma RangeFrameDecodes(readings: seq<int16>, rows: seq<seq<u16>>, list: seq<byte>, i: nat)
    requires forall i :: 0 <= i < |list| ==> list[i] < |rows| && list[i] < |readings|
    requires forall r :: 0 <= r < |rows| ==> |rows[r]| == US_RX_COUNT
    requires i < |list| < 0x10
    ensures var f := Frame(US_OUTPUT_RANGE, rows, readings, list);
            && |f| == 2 * |list| + 4
            && f[..2] == FRAME_START && f[|f| - 2..] == FRAME_END
            && SplitPair(f[2 + 2 * i], f[3 + 2 * i]) == (i, readings[list[i]] % 0x1000)
  {
    var body := RangeBody(readings, list);
    var f := Frame(US_OUTPUT_RANGE, rows, readings, list);
    assert f == FRAME_START + body + FRAME_END;
    RangeBodyAt(readings, list, i);
    var p := Pair(i, readings[list[i]]);
    assert body[2 * i] == p[0] && body[2 * i + 1] == p[1];
    assert f[2 + 2 * i] == p[0] && f[3 + 2 * i] == p[1];
    ItemDecodes(i, readings[list[i]], f[2 + 2 * i], f[3 + 2 * i]);
  }

  /** The two bytes of an item with a tag below 16 decode to that tag and
      the value's low 12 bits. */
  lemma ItemDecodes(tag: nat, value: int, first: byte, second: byte)
    requires tag < 0x10 && Pair(tag, value) == [first, second]
    ensures SplitPair(first, second) == (tag, value % 0x1000)
  {
    PairRoundTrip(tag, value);
    assert tag % 0x10 == tag;
  }
}
