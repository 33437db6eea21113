/**
 * Byte-level helpers shared by the WAV encoder and the response decoder:
 * ECMAScript's ToUint8 (`ToByte`, reduction modulo 2^8, what setUint8 and a
 * Uint8Array element store do to an integral number), little-endian encodings
 * of 16- and 32-bit fields (`LE16` and `LE32`, which reduce modulo 2^16 and
 * 2^32 as setUint16 and setUint32 do) with their readers, and the
 * correspondence between a "binary string" (one code unit per byte) and a
 * byte sequence.
 */
module Bytes {

  const TwoTo8: int := 0x100
  const TwoTo16: int := 0x1_0000
  const TwoTo32: int := 0x1_0000_0000

  /** A byte: one element of an ArrayBuffer or a Uint8Array. */
  type byte = b: int | 0 <= b < 0x100

  /** ToUint8: the byte an integral number becomes when stored into a byte slot. */
  function ToByte(v: int): (b: byte)
    ensures (v - b) % TwoTo8 == 0
  {
    v % TwoTo8
  }

  /** The two bytes DataView.setUint16(offset, v, true) writes, low byte first. */
  function LE16(v: int): (r: seq<byte>)
    ensures |r| == 2
  {
    var u := v % TwoTo16;
    [ToByte(u), ToByte(u / 0x100)]
  }

  /** The four bytes DataView.setUint32(offset, v, true) writes, low byte first. */
  function LE32(v: int): (r: seq<byte>)
    ensures |r| == 4
  {
    var u := v % TwoTo32;
    [ToByte(u), ToByte(u / 0x100), ToByte(u / 0x1_0000), ToByte(u / 0x100_0000)]
  }

  /** The unsigned value of two little-endian bytes (DataView.getUint16(o, true)). */
  function ReadLE16(b: seq<byte>): (v: int)
    requires |b| == 2
    ensures 0 <= v < TwoTo16
  {
    b[0] as int + 0x100 * b[1] as int
  }

  /** The unsigned value of four little-endian bytes (DataView.getUint32(o, true)). */
  function ReadLE32(b: seq<byte>): (v: int)
    requires |b| == 4
    ensures 0 <= v < TwoTo32
  {
    b[0] as int + 0x100 * b[1] as int + 0x1_0000 * b[2] as int + 0x100_0000 * b[3] as int
  }

  /** Splitting a number into a low byte and the rest, and putting it back. */
  lemma SplitByte(lo: int, hi: int)
    requires 0 <= lo < 0x100
    ensures (lo + 0x100 * hi) % 0x100 == lo && (lo + 0x100 * hi) / 0x100 == hi
  {
  }

  /** A value that already fits in 32 bits is unchanged by ToUint32. */
  lemma Fits32(v: int)
    requires 0 <= v < TwoTo32
    ensures v % TwoTo32 == v
  {
  }

  /** A value that already fits in 16 bits is unchanged by ToUint16. */
  lemma Fits16(v: int)
    requires 0 <= v < TwoTo16
    ensures v % TwoTo16 == v
  {
  }

  /** Reading back a written 16-bit field gives the value reduced modulo 2^16. */
  lemma ReadLE16OfLE16(v: int)
    ensures ReadLE16(LE16(v)) == v % TwoTo16
  {
    var u := v % TwoTo16;
    assert u == (u / 0x100) * 0x100 + u % 0x100;
  }

  /** Reading back a written 32-bit field gives the value reduced modulo 2^32. */
  lemma ReadLE32OfLE32(v: int)
    ensures ReadLE32(LE32(v)) == v % TwoTo32
  {
    var u := v % TwoTo32;
    var q1 := u / 0x100;
    var q2 := q1 / 0x100;
    var q3 := q2 / 0x100;
    ShiftTwoBytes(u);
    ShiftThreeBytes(u);
    assert u == q1 * 0x100 + u % 0x100;
    assert q1 == q2 * 0x100 + q1 % 0x100;
    assert q2 == q3 * 0x100 + q2 % 0x100;
    assert LE32(v) == [ToByte(u), ToByte(q1), ToByte(q2), ToByte(q3)];
  }

  /** Dropping two low bytes one at a time, or both at once. */
  lemma ShiftTwoBytes(x: nat)
    ensures x / 0x100 / 0x100 == x / 0x1_0000
  {
    var q, r := x / 0x1_0000, x % 0x1_0000;
    assert x / 0x100 == 0x100 * q + r / 0x100;
  }

  /** Dropping a third low byte after two, or all three at once. */
  lemma ShiftThreeBytes(x: nat)
    ensures x / 0x1_0000 / 0x100 == x / 0x100_0000
  {
    var q, r := x / 0x100_0000, x % 0x100_0000;
    assert x / 0x1_0000 == 0x100 * q + r / 0x1_0000;
  }

  /** Every two-byte sequence is the encoding of the value it reads as. */
  lemma LE16OfReadLE16(b: seq<byte>)
    requires |b| == 2
    ensures LE16(ReadLE16(b)) == b
  {
  }

  /** Every four-byte sequence is the encoding of the value it reads as. */
  lemma LE32OfReadLE32(b: seq<byte>)
    requires |b| == 4
    ensures LE32(ReadLE32(b)) == b
  {
    var u := ReadLE32(b);
    var r1 := b[1] as int + 0x100 * b[2] as int + 0x1_0000 * b[3] as int;
    var r2 := b[2] as int + 0x100 * b[3] as int;
    SplitByte(b[0], r1);
    SplitByte(b[1], r2);
    SplitByte(b[2], b[3]);
    ShiftTwoBytes(u);
    ShiftThreeBytes(u);
    Fits32(u);
    assert LE32(u) == [ToByte(u), ToByte(r1), ToByte(r2), ToByte(b[3])];
  }

  /**
   * The bytes of a string taken one code unit at a time, each reduced by
   * ToUint8: what `view.setUint8(o + i, s.charCodeAt(i))` and
   * `bytes[i] = s.charCodeAt(i)` store.
   */
  function CodeUnitBytes(s: string): (r: seq<byte>)
    ensures |r| == |s|
  {
    seq(|s|, i requires 0 <= i < |s| => ToByte(s[i] as int))
  }

  /** A binary string holds one code unit below 256 per byte. */
  predicate IsBinaryString(s: string) {
    forall i :: 0 <= i < |s| ==> s[i] as int < TwoTo8
  }

  /** The binary string whose code units are the given bytes (the form atob returns). */
  function BinaryString(b: seq<byte>): (s: string)
    ensures |s| == |b|
  {
    seq(|b|, i requires 0 <= i < |b| => b[i] as char)
  }

  /** Storing a binary string's code units as bytes recovers the bytes it was made from. */
  lemma CodeUnitBytesOfBinaryString(b: seq<byte>)
    ensures IsBinaryString(BinaryString(b))
    ensures CodeUnitBytes(BinaryString(b)) == b
  {
  }

  /** A binary string is the binary string of its own code-unit bytes: no code unit is altered by ToUint8. */
  lemma BinaryStringOfCodeUnitBytes(s: string)
    requires IsBinaryString(s)
    ensures BinaryString(CodeUnitBytes(s)) == s
  {
  }
}
