/**
 * Bytes as Node's Buffer stores them, and the little-endian integer reads
 * and writes that the audio code performs on them.
 */
module Bytes {

  type Byte = b: int | 0 <= b < 0x100

  const U16_LIMIT: int := 0x1_0000
  const U32_LIMIT: int := 0x1_0000_0000

  /** The two bytes `Buffer.writeUInt16LE` stores for `v`. */
  function UInt16LE(v: int): (r: seq<Byte>)
    requires 0 <= v < U16_LIMIT
    ensures |r| == 2
  {
    [v % 0x100, v / 0x100]
  }

  /** The four bytes `Buffer.writeUInt32LE` stores for `v`. */
  function UInt32LE(v: int): (r: seq<Byte>)
    requires 0 <= v < U32_LIMIT
    ensures |r| == 4
  {
    [v % 0x100, (v / 0x100) % 0x100, (v / 0x1_0000) % 0x100, v / 0x100_0000]
  }

  /** `Buffer.readUInt16LE(offset)`. */
  function ReadUInt16LE(b: seq<Byte>, offset: nat): (v: int)
    requires offset + 2 <= |b|
    ensures 0 <= v < U16_LIMIT
  {
    b[offset] as int + 0x100 * b[offset + 1] as int
  }

  /** `Buffer.readUInt32LE(offset)`. */
  function ReadUInt32LE(b: seq<Byte>, offset: nat): (v: int)
    requires offset + 4 <= |b|
    ensures 0 <= v < U32_LIMIT
  {
    b[offset] as int + 0x100 * b[offset + 1] as int + 0x1_0000 * b[offset + 2] as int + 0x100_0000 * b[offset + 3] as int
  }

  /** `Buffer.readInt16LE(offset)`: two's complement reading of the 16-bit word. */
  function ReadInt16LE(b: seq<Byte>, offset: nat): (v: int)
    requires offset + 2 <= |b|
    ensures -0x8000 <= v < 0x8000
    ensures v >= 0 <==> b[offset + 1] < 0x80
  {
    var u := ReadUInt16LE(b, offset);
    if u < 0x8000 then u else u - U16_LIMIT
  }

  /** The two bytes a signed 16-bit sample occupies in little-endian PCM. */
  function Int16LE(v: int): (r: seq<Byte>)
    requires -0x8000 <= v < 0x8000
    ensures |r| == 2
  {
    UInt16LE(if v < 0 then v + U16_LIMIT else v)
  }

  lemma UInt16RoundTrip(v: int)
    requires 0 <= v < U16_LIMIT
    ensures ReadUInt16LE(UInt16LE(v), 0) == v
  {
  }

  lemma UInt32RoundTrip(v: int)
    requires 0 <= v < U32_LIMIT
    ensures ReadUInt32LE(UInt32LE(v), 0) == v
  {
    var b := UInt32LE(v);
    var q1 := v / 0x100;
    var q2 := q1 / 0x100;
    assert v == b[0] + 0x100 * q1;
    assert q1 == b[1] + 0x100 * q2;
    assert v / 0x1_0000 == q2;
    assert q2 == b[2] as int + 0x100 * b[3] as int;
  }

  lemma Int16RoundTrip(v: int)
    requires -0x8000 <= v < 0x8000
    ensures ReadInt16LE(Int16LE(v), 0) == v
  {
    UInt16RoundTrip(if v < 0 then v + U16_LIMIT else v);
  }

  predicate IsAscii(s: string)
  {
    forall i | 0 <= i < |s| :: s[i] as int < 0x80
  }

  /** What `Buffer.write(s, offset)` stores for an ASCII string (UTF-8 of ASCII is ASCII). */
  function Ascii(s: string): (r: seq<Byte>)
    requires IsAscii(s)
    ensures |r| == |s|
  {
    seq(|s|, i requires 0 <= i < |s| => s[i] as int)
  }

  /** Reads bytes back as characters, one per byte. */
  function AsText(b: seq<Byte>): (s: string)
    ensures |s| == |b|
  {
    seq(|b|, i requires 0 <= i < |b| => b[i] as char)
  }

  lemma AsciiRoundTrip(s: string)
    requires IsAscii(s)
    ensures AsText(Ascii(s)) == s
  {
  }
}
