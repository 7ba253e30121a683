/** Bytes and the fixed-width integers the wire formats pack into them. */
module Bytes {

  type byte = x: int | 0 <= x < 0x100
  type u16 = x: int | 0 <= x < 0x1_0000
  type u32 = x: int | 0 <= x < 0x1_0000_0000

  type bytes = seq<byte>

  datatype Option<+T> = None | Some(value: T)

  /** What an operation that raises ValueError (or struct.error) hands back. */
  datatype Result<+T> = Ok(value: T) | ValueError

  function U16Be(v: u16): (b: bytes)
    ensures |b| == 2
  {
    [v / 0x100, v % 0x100]
  }

  function U16Le(v: u16): (b: bytes)
    ensures |b| == 2
  {
    [v % 0x100, v / 0x100]
  }

  function U32Be(v: u32): (b: bytes)
    ensures |b| == 4
  {
    [v / 0x100_0000, v / 0x1_0000 % 0x100, v / 0x100 % 0x100, v % 0x100]
  }

  function U32Le(v: u32): (b: bytes)
    ensures |b| == 4
  {
    [v % 0x100, v / 0x100 % 0x100, v / 0x1_0000 % 0x100, v / 0x100_0000]
  }

  function ReadU16Be(b: bytes, at: nat): u16
    requires at + 2 <= |b|
  {
    (b[at] as int) * 0x100 + b[at + 1] as int
  }

  function ReadU16Le(b: bytes, at: nat): u16
    requires at + 2 <= |b|
  {
    b[at] as int + (b[at + 1] as int) * 0x100
  }

  function ReadU32Be(b: bytes, at: nat): u32
    requires at + 4 <= |b|
  {
    (b[at] as int) * 0x100_0000 + (b[at + 1] as int) * 0x1_0000 + (b[at + 2] as int) * 0x100 + b[at + 3] as int
  }

  /** Whether the single-bit mask `bit` is set in `x`. */
  predicate HasBit(x: byte, bit: int)
    requires 0 < bit
  {
    x / bit % 2 == 1
  }

  function Zeros(n: nat): (z: bytes)
    ensures |z| == n
    ensures forall i :: 0 <= i < n ==> z[i] == 0
  {
    seq(n, i => 0)
  }

  lemma U32RoundTrip(v: u32)
    ensures ReadU32Be(U32Be(v), 0) == v
  {
    assert v / 0x1_0000 == v / 0x100_0000 * 0x100 + v / 0x1_0000 % 0x100;
    assert v / 0x100 == v / 0x1_0000 * 0x100 + v / 0x100 % 0x100;
  }
}
