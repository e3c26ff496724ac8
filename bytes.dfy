/** Byte-level helpers shared by every module: the C integer types the
    firmware uses, two's-complement conversions, little-endian 16-bit
    packing and ASCII text. */
module Bytes {

  type byte = x: int | 0 <= x < 0x100
  type int8 = x: int | -0x80 <= x < 0x80
  type u16 = x: int | 0 <= x < 0x1_0000
  type u32 = x: int | 0 <= x < 0x1_0000_0000
  type int16 = x: int | -0x8000 <= x < 0x8000
  type int32 = x: int | -0x8000_0000 <= x < 0x8000_0000

  datatype Option<+T> = None | Some(value: T)

  /** A byte read into a `char`, which is signed on this target. */
  function ToInt8(b: byte): (r: int8)
    ensures (r - b) % 0x100 == 0
    ensures b < 0x80 ==> r == b
    ensures b >= 0x80 ==> r < 0
  {
    if b < 0x80 then b else b - 0x100
  }

  /** Conversion of any integer to `signed short`: keep the low 16 bits
      and read them as two's complement. */
  function ToInt16(x: int): (r: int16)
    ensures (r - x) % 0x1_0000 == 0
  {
    var low := x % 0x1_0000;
    if low < 0x8000 then low else low - 0x1_0000
  }

  /** Conversion of any integer to a 32-bit `int`. */
  function ToInt32(x: int): (r: int32)
    ensures (r - x) % 0x1_0000_0000 == 0
  {
    var low := x % 0x1_0000_0000;
    if low < 0x8000_0000 then low else low - 0x1_0000_0000
  }

  /** A value that fits a `signed short` converts to itself. */
  lemma ToInt16InRange(x: int)
    requires -0x8000 <= x < 0x8000
    ensures ToInt16(x) == x
  {
  }

  /** A value that fits an `int` converts to itself. */
  lemma ToInt32InRange(x: int)
    requires -0x8000_0000 <= x < 0x8000_0000
    ensures ToInt32(x) == x
  {
  }

  /** Conversion of any integer to `unsigned int`. */
  function ToU32(x: int): (r: u32)
    ensures (r - x) % 0x1_0000_0000 == 0
  {
    x % 0x1_0000_0000
  }

  /** C integer division, which truncates toward zero (Dafny's `/` is
      Euclidean). */
  function CDiv(a: int, b: int): (q: int)
    requires b > 0
    ensures a >= 0 ==> q * b <= a < q * b + b
    ensures a < 0 ==> q * b >= a > q * b - b
  {
    if a >= 0 then a / b else -((-a) / b)
  }

  /** Little-endian reading of two bytes, as the firmware does when it
      copies received bytes into an `unsigned short` on the little-endian
      MicroBlaze. */
  function Le16(lo: byte, hi: byte): u16 {
    lo + 0x100 * hi
  }

  /** The two bytes of a 16-bit value in memory order, low byte first. */
  function Le16Bytes(v: u16): (s: seq<byte>)
    ensures |s| == 2 && Le16(s[0], s[1]) == v
  {
    [v % 0x100, v / 0x100]
  }

  lemma Le16RoundTrip(lo: byte, hi: byte)
    ensures Le16Bytes(Le16(lo, hi)) == [lo, hi]
  {
  }

  /** ASCII text as the bytes a `char` buffer holds. */
  function Ascii(s: string): (r: seq<byte>)
    ensures |r| == |s|
    ensures forall i :: 0 <= i < |s| ==> r[i] == (s[i] as int) % 0x100
  {
    seq(|s|, i requires 0 <= i < |s| => (s[i] as int) % 0x100)
  }

  /** Concatenation regrouped: what a sequence of appends to one stream
      amounts to. */
  lemma AppendAssoc<T>(a: seq<T>, b: seq<T>, c: seq<T>)
    ensures (a + b) + c == a + (b + c)
  {
  }

  /** Dropping `a` elements and then `b` more drops `a + b`. */
  lemma DropDrop<T>(s: seq<T>, a: nat, b: nat)
    requires a + b <= |s|
    ensures s[a..][b..] == s[a + b..]
  {
  }

  /** A slice inside the left part of a concatenation. */
  lemma SliceLeft<T>(a: seq<T>, b: seq<T>, lo: nat, hi: nat)
    requires lo <= hi <= |a|
    ensures (a + b)[lo..hi] == a[lo..hi]
  {
  }

  /** The right part of a concatenation, sliced back out. */
  lemma SliceRight<T>(a: seq<T>, b: seq<T>)
    ensures (a + b)[|a|..|a| + |b|] == b
  {
  }

  const NUL: byte := 0
  const NEWLINE: byte := 10
  const HASH: byte := 35
  const COMMA: byte := 44
  const MINUS: byte := 45
  const ZERO: byte := 48
}
