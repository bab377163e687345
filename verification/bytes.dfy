/**
 * Bytes and the little-endian integer fields a `DataView` writes with `littleEndian = true`.
 * `setUint16`/`setInt16` store their argument modulo 2^16 and `setUint32` modulo 2^32,
 * so the encoders take any integer and reduce it explicitly.
 */
module Bytes {

  newtype uint8 = x: int | 0 <= x < 256

  const TWO_16: int := 0x1_0000
  const TWO_32: int := 0x1_0000_0000

  /** Two bytes, low byte first, of `n` modulo 2^16 (`setUint16`/`setInt16`). */
  function Le16(n: int): (r: seq<uint8>)
    ensures |r| == 2
  {
    var u := n % TWO_16;
    [(u % 256) as uint8, (u / 256) as uint8]
  }

  /** Four bytes, low byte first, of `n` modulo 2^32 (`setUint32`). */
  function Le32(n: int): (r: seq<uint8>)
    ensures |r| == 4
  {
    var u := n % TWO_32;
    Le16(u % TWO_16) + Le16(u / TWO_16)
  }

  /** Reads an unsigned 16-bit little-endian field. */
  function U16(b: seq<uint8>): (n: nat)
    requires |b| == 2
    ensures n < TWO_16
  {
    b[0] as int + 256 * b[1] as int
  }

  /** Reads a signed (two's complement) 16-bit little-endian field. */
  function S16(b: seq<uint8>): (n: int)
    requires |b| == 2
    ensures -0x8000 <= n < 0x8000
  {
    var u := U16(b);
    if u >= 0x8000 then u - TWO_16 else u
  }

  /** Reads an unsigned 32-bit little-endian field. */
  function U32(b: seq<uint8>): (n: nat)
    requires |b| == 4
    ensures n < TWO_32
  {
    U16(b[..2]) + TWO_16 * U16(b[2..])
  }

  /** The 16-bit field of `b` at byte offset `off`. */
  function U16At(b: seq<uint8>, off: nat): nat
    requires off + 2 <= |b|
  {
    U16(b[off..off + 2])
  }

  function S16At(b: seq<uint8>, off: nat): int
    requires off + 2 <= |b|
  {
    S16(b[off..off + 2])
  }

  function U32At(b: seq<uint8>, off: nat): nat
    requires off + 4 <= |b|
  {
    U32(b[off..off + 4])
  }

  /** Decoding an encoded 16-bit field gives the value modulo 2^16. */
  lemma Le16Decode(n: int)
    ensures U16(Le16(n)) == n % TWO_16
  {
  }

  /** A value that fits in a signed 16-bit field reads back unchanged. */
  lemma Le16Signed(n: int)
    requires -0x8000 <= n < 0x8000
    ensures S16(Le16(n)) == n
  {
    Le16Decode(n);
  }

  /** Decoding an encoded 32-bit field gives the value modulo 2^32. */
  lemma Le32Decode(n: int)
    ensures U32(Le32(n)) == n % TWO_32
  {
    var u := n % TWO_32;
    var b := Le32(n);
    assert b[..2] == Le16(u % TWO_16);
    assert b[2..] == Le16(u / TWO_16);
    Le16Decode(u % TWO_16);
    Le16Decode(u / TWO_16);
  }

  /** `charCodeAt` stored through `setUint8`: each code unit modulo 256. */
  function Ascii(s: string): (r: seq<uint8>)
    ensures |r| == |s|
    ensures forall i :: 0 <= i < |s| ==> r[i] as int == s[i] as int % 256
  {
    seq(|s|, i requires 0 <= i < |s| => (s[i] as int % 256) as uint8)
  }
}
