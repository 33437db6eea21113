/**
 * The WAV encoder of services/geminiService.ts: `pcmToWav` prefixes raw PCM
 * with the canonical 44-byte RIFF/WAVE header (a RIFF chunk descriptor, a
 * 16-byte "fmt " chunk with format tag 1 = PCM, and the "data" chunk header),
 * every multi-byte field little-endian, as the WAVE form of the Microsoft/IBM
 * Multimedia Programming Interface and Data Specifications 1.0 lays it out.
 *
 * The pure functions below are the specification; `PcmToWav` is the
 * imperative encoder, filling a 44-byte buffer through DataView-style writes
 * and copying header and payload into a fresh byte array, proved equal to it.
 */
module Wav {
  import opened Wrappers
  import opened Bytes

  const HeaderSize: int := 44

  /** The defaults of `pcmToWav`, which `generateSpeech` relies on (24 kHz, mono, 16-bit). */
  const DefaultSampleRate: int := 24000
  const DefaultChannels: int := 1
  const DefaultBitDepth: int := 16

  /** Size of the "fmt " chunk body for PCM, and the PCM format tag. */
  const FmtChunkSize: int := 16
  const PcmFormat: int := 1

  /** The audio parameters carried by the "fmt " chunk. */
  datatype Format = Format(sampleRate: int, numChannels: int, bitDepth: int)

  /** Bytes per second: sampleRate * numChannels * bitDepth / 8, that is, frames per second times bytes per frame. */
  function ByteRate(sampleRate: int, numChannels: int, bitDepth: int): (r: int)
    requires bitDepth % 8 == 0
    ensures r * 8 == sampleRate * numChannels * bitDepth
    ensures r == sampleRate * BlockAlign(numChannels, bitDepth)
  {
    BitsOfBytes(sampleRate * numChannels, bitDepth);
    sampleRate * numChannels * (bitDepth / 8)
  }

  /** Bytes per sample frame: numChannels * bitDepth / 8. */
  function BlockAlign(numChannels: int, bitDepth: int): (r: int)
    requires bitDepth % 8 == 0
    ensures r * 8 == numChannels * bitDepth
  {
    BitsOfBytes(numChannels, bitDepth);
    numChannels * (bitDepth / 8)
  }

  /** n units of bitDepth / 8 bytes each hold n * bitDepth bits when bitDepth is a whole number of bytes. */
  lemma BitsOfBytes(n: int, bitDepth: int)
    requires bitDepth % 8 == 0
    ensures n * (bitDepth / 8) * 8 == n * bitDepth
  {
    assert bitDepth == bitDepth / 8 * 8;
  }

  /** RIFF chunk descriptor: "RIFF", the RIFF size (data length + 36), "WAVE". */
  function RiffDescriptor(dataLen: int): (r: seq<byte>)
    ensures |r| == 12
  {
    CodeUnitBytes("RIFF") + LE32(dataLen + 36) + CodeUnitBytes("WAVE")
  }

  /** The "fmt " sub-chunk: tag, size 16, PCM, channels, rate, byte rate, block align, bit depth. */
  function FmtChunk(sampleRate: int, numChannels: int, bitDepth: int): (r: seq<byte>)
    requires bitDepth % 8 == 0
    ensures |r| == 24
  {
    CodeUnitBytes("fmt ") + LE32(FmtChunkSize) + LE16(PcmFormat) + LE16(numChannels)
    + LE32(sampleRate) + LE32(ByteRate(sampleRate, numChannels, bitDepth))
    + LE16(BlockAlign(numChannels, bitDepth)) + LE16(bitDepth)
  }

  /** The "data" sub-chunk header: tag and data length. */
  function DataChunkHeader(dataLen: int): (r: seq<byte>)
    ensures |r| == 8
  {
    CodeUnitBytes("data") + LE32(dataLen)
  }

  /** The 44 header bytes `pcmToWav` writes for a payload of dataLen bytes. */
  function Header(dataLen: int, sampleRate: int, numChannels: int, bitDepth: int): (h: seq<byte>)
    requires bitDepth % 8 == 0
    ensures |h| == HeaderSize
  {
    RiffDescriptor(dataLen) + FmtChunk(sampleRate, numChannels, bitDepth) + DataChunkHeader(dataLen)
  }

  /** The WAV container: header followed by the PCM bytes, unchanged. */
  function Container(pcm: seq<byte>, sampleRate: int, numChannels: int, bitDepth: int): (w: seq<byte>)
    requires bitDepth % 8 == 0
    ensures |w| == HeaderSize + |pcm|
    ensures w[HeaderSize..] == pcm
  {
    Header(|pcm|, sampleRate, numChannels, bitDepth) + pcm
  }

  /** The four tags, byte by byte. */
  lemma TagBytes()
    ensures CodeUnitBytes("RIFF") == [0x52, 0x49, 0x46, 0x46]
    ensures CodeUnitBytes("WAVE") == [0x57, 0x41, 0x56, 0x45]
    ensures CodeUnitBytes("fmt ") == [0x66, 0x6D, 0x74, 0x20]
    ensures CodeUnitBytes("data") == [0x64, 0x61, 0x74, 0x61]
  {
  }

  /** The ASCII tags sit at their fixed offsets. */
  lemma ContainerTags(pcm: seq<byte>, sampleRate: int, numChannels: int, bitDepth: int)
    requires bitDepth % 8 == 0
    ensures var w := Container(pcm, sampleRate, numChannels, bitDepth);
      && w[0..4] == CodeUnitBytes("RIFF") && w[8..12] == CodeUnitBytes("WAVE")
      && w[12..16] == CodeUnitBytes("fmt ") && w[36..40] == CodeUnitBytes("data")
  {
    var h := Header(|pcm|, sampleRate, numChannels, bitDepth);
    var w := Container(pcm, sampleRate, numChannels, bitDepth);
    assert w[..44] == h;
    var riff, fmt := RiffDescriptor(|pcm|), FmtChunk(sampleRate, numChannels, bitDepth);
    assert h[..12] == riff && h[12..36] == fmt && h[36..] == DataChunkHeader(|pcm|);
    assert riff[0..4] == CodeUnitBytes("RIFF") && riff[8..12] == CodeUnitBytes("WAVE");
    assert fmt[0..4] == CodeUnitBytes("fmt ");
  }

  /**
   * The two length fields, read back little-endian: the RIFF size at offset 4
   * is the data length + 36 and the data length sits at offset 40, each
   * reduced modulo 2^32 as DataView.setUint32 does.
   */
  lemma ContainerLengthFields(pcm: seq<byte>, sampleRate: int, numChannels: int, bitDepth: int)
    requires bitDepth % 8 == 0
    ensures var w := Container(pcm, sampleRate, numChannels, bitDepth);
      && ReadLE32(w[4..8]) == (|pcm| + 36) % TwoTo32
      && ReadLE32(w[40..44]) == |pcm| % TwoTo32
  {
    var w := Container(pcm, sampleRate, numChannels, bitDepth);
    var h := Header(|pcm|, sampleRate, numChannels, bitDepth);
    var riff, data := RiffDescriptor(|pcm|), DataChunkHeader(|pcm|);
    assert w[..44] == h;
    assert h[..12] == riff && h[36..] == data;
    assert w[4..8] == riff[4..8] == LE32(|pcm| + 36);
    assert w[40..44] == data[4..8] == LE32(|pcm|);
    ReadLE32OfLE32(|pcm| + 36);
    ReadLE32OfLE32(|pcm|);
  }

  /** The three chunks of the header sit at offsets 0, 12 and 36, and the payload at 44. */
  lemma ContainerChunks(pcm: seq<byte>, sampleRate: int, numChannels: int, bitDepth: int)
    requires bitDepth % 8 == 0
    ensures var w := Container(pcm, sampleRate, numChannels, bitDepth);
      && w[0..12] == RiffDescriptor(|pcm|)
      && w[12..36] == FmtChunk(sampleRate, numChannels, bitDepth)
      && w[36..44] == DataChunkHeader(|pcm|)
  {
    var w := Container(pcm, sampleRate, numChannels, bitDepth);
    var h := Header(|pcm|, sampleRate, numChannels, bitDepth);
    assert w[..44] == h;
    assert w[0..12] == h[0..12] && w[12..36] == h[12..36] && w[36..44] == h[36..44];
  }

  /** Where each field of the "fmt " chunk sits in the chunk. */
  lemma FmtChunkLayout(sampleRate: int, numChannels: int, bitDepth: int)
    requires bitDepth % 8 == 0
    ensures var b := FmtChunk(sampleRate, numChannels, bitDepth);
      && b[0..4] == CodeUnitBytes("fmt ")
      && b[4..8] == LE32(FmtChunkSize)
      && b[8..10] == LE16(PcmFormat)
      && b[10..12] == LE16(numChannels)
      && b[12..16] == LE32(sampleRate)
      && b[16..20] == LE32(ByteRate(sampleRate, numChannels, bitDepth))
      && b[20..22] == LE16(BlockAlign(numChannels, bitDepth))
      && b[22..24] == LE16(bitDepth)
  {
    var b := FmtChunk(sampleRate, numChannels, bitDepth);
    var front := CodeUnitBytes("fmt ") + LE32(FmtChunkSize) + LE16(PcmFormat) + LE16(numChannels);
    var back := LE32(sampleRate) + LE32(ByteRate(sampleRate, numChannels, bitDepth))
      + LE16(BlockAlign(numChannels, bitDepth)) + LE16(bitDepth);
    assert b == front + back;
    assert b[..12] == front && b[12..] == back;
    assert b[0..4] == front[0..4] && b[4..8] == front[4..8] && b[8..10] == front[8..10] && b[10..12] == front[10..12];
    assert b[12..16] == back[0..4] && b[16..20] == back[4..8] && b[20..22] == back[8..10] && b[22..24] == back[10..12];
  }

  /** The fields of the "fmt " chunk, read back little-endian. */
  lemma FmtChunkFields(sampleRate: int, numChannels: int, bitDepth: int)
    requires bitDepth % 8 == 0
    ensures var b := FmtChunk(sampleRate, numChannels, bitDepth);
      && b[0..4] == CodeUnitBytes("fmt ")
      && ReadLE32(b[4..8]) == 16
      && ReadLE16(b[8..10]) == 1
      && ReadLE16(b[10..12]) == numChannels % TwoTo16
      && ReadLE32(b[12..16]) == sampleRate % TwoTo32
      && ReadLE32(b[16..20]) == ByteRate(sampleRate, numChannels, bitDepth) % TwoTo32
      && ReadLE16(b[20..22]) == BlockAlign(numChannels, bitDepth) % TwoTo16
      && ReadLE16(b[22..24]) == bitDepth % TwoTo16
  {
    FmtChunkLayout(sampleRate, numChannels, bitDepth);
    ReadLE32OfLE32(16);
    ReadLE16OfLE16(1);
    ReadLE16OfLE16(numChannels);
    ReadLE32OfLE32(sampleRate);
    ReadLE32OfLE32(ByteRate(sampleRate, numChannels, bitDepth));
    ReadLE16OfLE16(BlockAlign(numChannels, bitDepth));
    ReadLE16OfLE16(bitDepth);
  }

  /**
   * The "fmt " chunk fields of the container, read back little-endian: size
   * 16, format 1, and the channel count, sample rate, byte rate, block align
   * and bit depth `pcmToWav` stores, each reduced modulo 2^32 or 2^16 as
   * DataView does.
   */
  lemma ContainerFormatFields(pcm: seq<byte>, sampleRate: int, numChannels: int, bitDepth: int)
    requires bitDepth % 8 == 0
    ensures var w := Container(pcm, sampleRate, numChannels, bitDepth);
      && ReadLE32(w[16..20]) == 16
      && ReadLE16(w[20..22]) == 1
      && ReadLE16(w[22..24]) == numChannels % TwoTo16
      && ReadLE32(w[24..28]) == sampleRate % TwoTo32
      && ReadLE32(w[28..32]) == ByteRate(sampleRate, numChannels, bitDepth) % TwoTo32
      && ReadLE16(w[32..34]) == BlockAlign(numChannels, bitDepth) % TwoTo16
      && ReadLE16(w[34..36]) == bitDepth % TwoTo16
  {
    var w := Container(pcm, sampleRate, numChannels, bitDepth);
    ContainerChunks(pcm, sampleRate, numChannels, bitDepth);
    FmtChunkFields(sampleRate, numChannels, bitDepth);
    var fmt := w[12..36];
    assert w[16..20] == fmt[4..8] && w[20..22] == fmt[8..10] && w[22..24] == fmt[10..12];
    assert w[24..28] == fmt[12..16] && w[28..32] == fmt[16..20];
    assert w[32..34] == fmt[20..22] && w[34..36] == fmt[22..24];
  }

  /**
   * When the RIFF size fits in 32 bits, the declared RIFF size plus 8 and the
   * declared data length plus 44 both equal the container's length.
   */
  lemma DeclaredLengths(pcm: seq<byte>, sampleRate: int, numChannels: int, bitDepth: int)
    requires bitDepth % 8 == 0
    requires |pcm| + 36 < TwoTo32
    ensures var w := Container(pcm, sampleRate, numChannels, bitDepth);
      && ReadLE32(w[4..8]) + 8 == |w|
      && ReadLE32(w[40..44]) + HeaderSize == |w|
  {
    ContainerLengthFields(pcm, sampleRate, numChannels, bitDepth);
    var w := Container(pcm, sampleRate, numChannels, bitDepth);
    var n := |pcm|;
    assert ReadLE32(w[4..8]) == (n + 36) % TwoTo32;
    Fits32(n + 36);
    Fits32(n);
  }

  /** With the defaults of `generateSpeech` (24000 Hz, mono, 16-bit) the byte rate is 48000 and the block align 2. */
  lemma DefaultFormatFields(pcm: seq<byte>)
    ensures var w := Container(pcm, DefaultSampleRate, DefaultChannels, DefaultBitDepth);
      && ReadLE16(w[22..24]) == 1
      && ReadLE32(w[24..28]) == 24000
      && ReadLE32(w[28..32]) == 48000
      && ReadLE16(w[32..34]) == 2
      && ReadLE16(w[34..36]) == 16
  {
    assert ByteRate(DefaultSampleRate, DefaultChannels, DefaultBitDepth) == 48000;
    assert BlockAlign(DefaultChannels, DefaultBitDepth) == 2;
    ContainerFormatFields(pcm, DefaultSampleRate, DefaultChannels, DefaultBitDepth);
  }

  /**
   * A reader for the canonical 44-byte layout: accepts exactly the byte
   * sequences whose tags, sizes and derived fields are consistent, and returns
   * the format and the payload.
   */
  function Parse(w: seq<byte>): (r: Option<(Format, seq<byte>)>)
    ensures r.Some? ==> |w| >= HeaderSize && r.value.1 == w[HeaderSize..]
  {
    if |w| < HeaderSize then None
    else
      var channels, rate, depth := ReadLE16(w[22..24]), ReadLE32(w[24..28]), ReadLE16(w[34..36]);
      if w[0..4] == CodeUnitBytes("RIFF") && ReadLE32(w[4..8]) == |w| - 8
        && w[8..12] == CodeUnitBytes("WAVE") && w[12..16] == CodeUnitBytes("fmt ")
        && ReadLE32(w[16..20]) == FmtChunkSize && ReadLE16(w[20..22]) == PcmFormat
        && depth % 8 == 0
        && ReadLE32(w[28..32]) == ByteRate(rate, channels, depth) % TwoTo32
        && ReadLE16(w[32..34]) == BlockAlign(channels, depth) % TwoTo16
        && w[36..40] == CodeUnitBytes("data") && ReadLE32(w[40..44]) == |w| - HeaderSize
      then Some((Format(rate, channels, depth), w[HeaderSize..]))
      else None
  }

  /** Fields that fit their widths, as the reader can return them. */
  predicate Representable(pcm: seq<byte>, f: Format) {
    && 0 <= f.sampleRate < TwoTo32 && 0 <= f.numChannels < TwoTo16
    && 0 <= f.bitDepth < TwoTo16 && f.bitDepth % 8 == 0
    && |pcm| + 36 < TwoTo32
  }

  /** Reading back what `pcmToWav` writes recovers the format and the payload. */
  lemma ParseContainer(pcm: seq<byte>, f: Format)
    requires Representable(pcm, f)
    ensures Parse(Container(pcm, f.sampleRate, f.numChannels, f.bitDepth)) == Some((f, pcm))
  {
    ContainerTags(pcm, f.sampleRate, f.numChannels, f.bitDepth);
    DeclaredLengths(pcm, f.sampleRate, f.numChannels, f.bitDepth);
    ContainerFormatFields(pcm, f.sampleRate, f.numChannels, f.bitDepth);
    Fits32(f.sampleRate);
    Fits16(f.numChannels);
    Fits16(f.bitDepth);
  }

  /** LE32 depends only on the value modulo 2^32: a field read back re-encodes to itself. */
  lemma LE32Field(b: seq<byte>, v: int)
    requires |b| == 4 && ReadLE32(b) == v % TwoTo32
    ensures b == LE32(v)
  {
    LE32OfReadLE32(b);
    Fits32(v % TwoTo32);
  }

  /** LE16 depends only on the value modulo 2^16. */
  lemma LE16Field(b: seq<byte>, v: int)
    requires |b| == 2 && ReadLE16(b) == v % TwoTo16
    ensures b == LE16(v)
  {
    LE16OfReadLE16(b);
    Fits16(v % TwoTo16);
  }

  /** Twelve bytes with the RIFF tags and a RIFF size of n + 36 are the descriptor for n data bytes. */
  lemma RiffDescriptorOfFields(b: seq<byte>, n: int)
    requires |b| == 12 && b[0..4] == CodeUnitBytes("RIFF") && b[8..12] == CodeUnitBytes("WAVE")
    requires ReadLE32(b[4..8]) == (n + 36) % TwoTo32
    ensures b == RiffDescriptor(n)
  {
    LE32Field(b[4..8], n + 36);
    assert b == b[0..4] + b[4..8] + b[8..12];
  }

  /** Twenty-four bytes holding the "fmt " fields of f are the "fmt " chunk of f. */
  lemma FmtChunkOfFields(b: seq<byte>, f: Format)
    requires |b| == 24 && b[0..4] == CodeUnitBytes("fmt ") && f.bitDepth % 8 == 0
    requires ReadLE32(b[4..8]) == FmtChunkSize && ReadLE16(b[8..10]) == PcmFormat
    requires ReadLE16(b[10..12]) == f.numChannels % TwoTo16
    requires ReadLE32(b[12..16]) == f.sampleRate % TwoTo32
    requires ReadLE32(b[16..20]) == ByteRate(f.sampleRate, f.numChannels, f.bitDepth) % TwoTo32
    requires ReadLE16(b[20..22]) == BlockAlign(f.numChannels, f.bitDepth) % TwoTo16
    requires ReadLE16(b[22..24]) == f.bitDepth % TwoTo16
    ensures b == FmtChunk(f.sampleRate, f.numChannels, f.bitDepth)
  {
    LE32Field(b[4..8], FmtChunkSize);
    LE16Field(b[8..10], PcmFormat);
    LE16Field(b[10..12], f.numChannels);
    LE32Field(b[12..16], f.sampleRate);
    LE32Field(b[16..20], ByteRate(f.sampleRate, f.numChannels, f.bitDepth));
    LE16Field(b[20..22], BlockAlign(f.numChannels, f.bitDepth));
    LE16Field(b[22..24], f.bitDepth);
    assert b == b[0..4] + b[4..8] + b[8..10] + b[10..12] + b[12..16] + b[16..20] + b[20..22] + b[22..24];
  }

  /** Eight bytes with the "data" tag and a length of n are the data chunk header for n bytes. */
  lemma DataChunkHeaderOfFields(b: seq<byte>, n: int)
    requires |b| == 8 && b[0..4] == CodeUnitBytes("data") && ReadLE32(b[4..8]) == n % TwoTo32
    ensures b == DataChunkHeader(n)
  {
    LE32Field(b[4..8], n);
    assert b == b[0..4] + b[4..8];
  }

  /** Everything the reader accepts is a container `pcmToWav` produces. */
  lemma ContainerOfParse(w: seq<byte>)
    requires Parse(w).Some?
    ensures var (f, pcm) := Parse(w).value;
      Representable(pcm, f) && w == Container(pcm, f.sampleRate, f.numChannels, f.bitDepth)
  {
    var (f, pcm) := Parse(w).value;
    var n := |pcm|;
    var riff, fmt, data := w[0..12], w[12..36], w[36..44];
    assert w == riff + fmt + data + pcm;
    assert riff[0..4] == w[0..4] && riff[4..8] == w[4..8] && riff[8..12] == w[8..12];
    assert fmt[0..4] == w[12..16] && fmt[4..8] == w[16..20] && fmt[8..10] == w[20..22];
    assert fmt[10..12] == w[22..24] && fmt[12..16] == w[24..28] && fmt[16..20] == w[28..32];
    assert fmt[20..22] == w[32..34] && fmt[22..24] == w[34..36];
    assert data[0..4] == w[36..40] && data[4..8] == w[40..44];
    Fits32(n + 36);
    Fits32(n);
    Fits32(f.sampleRate);
    Fits16(f.numChannels);
    Fits16(f.bitDepth);
    RiffDescriptorOfFields(riff, n);
    FmtChunkOfFields(fmt, f);
    DataChunkHeaderOfFields(data, n);
  }

  // The imperative encoder. The header is an ArrayBuffer(44) seen through a
  // DataView; `array<byte>` stands for both, and each DataView setter below
  // writes exactly the bytes its little-endian encoding names.

  /** `s` with the bytes of `t` written over it from `offset` on. */
  function Overwrite(s: seq<byte>, offset: nat, t: seq<byte>): (r: seq<byte>)
    requires offset + |t| <= |s|
    ensures |r| == |s| && r[offset..offset + |t|] == t
    ensures r[..offset] == s[..offset] && r[offset + |t|..] == s[offset + |t|..]
  {
    s[..offset] + t + s[offset + |t|..]
  }

  /** DataView.setUint8(offset, v): one byte, v reduced by ToUint8. */
  method SetUint8(view: array<byte>, offset: nat, v: int)
    requires offset < view.Length
    modifies view
    ensures view[..] == Overwrite(old(view[..]), offset, [ToByte(v)])
  {
    view[offset] := ToByte(v);
  }

  /** DataView.setUint16(offset, v, true): two bytes, low byte first. */
  method SetUint16(view: array<byte>, offset: nat, v: int)
    requires offset + 2 <= view.Length
    modifies view
    ensures view[..] == Overwrite(old(view[..]), offset, LE16(v))
  {
    var u := v % TwoTo16;
    view[offset] := ToByte(u);
    view[offset + 1] := ToByte(u / 0x100);
  }

  /** DataView.setUint32(offset, v, true): four bytes, low byte first. */
  method SetUint32(view: array<byte>, offset: nat, v: int)
    requires offset + 4 <= view.Length
    modifies view
    ensures view[..] == Overwrite(old(view[..]), offset, LE32(v))
  {
    var u := v % TwoTo32;
    view[offset] := ToByte(u);
    view[offset + 1] := ToByte(u / 0x100);
    view[offset + 2] := ToByte(u / 0x1_0000);
    view[offset + 3] := ToByte(u / 0x100_0000);
  }

  /** `writeString`: the code units of s, one byte each, from offset on. */
  method WriteString(view: array<byte>, offset: nat, s: string)
    requires offset + |s| <= view.Length
    modifies view
    ensures view[..] == Overwrite(old(view[..]), offset, CodeUnitBytes(s))
  {
    for i := 0 to |s|
      invariant view[..] == Overwrite(old(view[..]), offset, CodeUnitBytes(s[..i]))
    {
      ghost var before := view[..];
      SetUint8(view, offset + i, s[i] as int);
      assert CodeUnitBytes(s[..i + 1]) == CodeUnitBytes(s[..i]) + [ToByte(s[i] as int)];
      assert view[..] == Overwrite(old(view[..]), offset, CodeUnitBytes(s[..i + 1]));
    }
    assert s[..|s|] == s;
  }

  /** `Uint8Array.prototype.set(source, offset)`: source's bytes copied into target from offset on. */
  method CopyInto(target: array<byte>, source: seq<byte>, offset: nat)
    requires offset + |source| <= target.Length
    modifies target
    ensures target[..] == Overwrite(old(target[..]), offset, source)
  {
    for i := 0 to |source|
      invariant target[..] == Overwrite(old(target[..]), offset, source[..i])
    {
      target[offset + i] := source[i];
      assert source[..i + 1] == source[..i] + [source[i]];
    }
    assert source[..|source|] == source;
  }

  /** Writing the next field of h after a prefix of h that is already in place extends that prefix. */
  lemma PrefixGrows(before: seq<byte>, h: seq<byte>, offset: nat, t: seq<byte>)
    requires offset + |t| <= |before| && offset + |t| <= |h|
    requires before[..offset] == h[..offset] && h[offset..offset + |t|] == t
    ensures Overwrite(before, offset, t)[..offset + |t|] == h[..offset + |t|]
  {
    var after := Overwrite(before, offset, t);
    assert after[..offset + |t|] == after[..offset] + after[offset..offset + |t|];
    assert h[..offset + |t|] == h[..offset] + h[offset..offset + |t|];
  }

  /** Where each of the thirteen header fields that `pcmToWav` writes sits in the header. */
  lemma HeaderLayout(dataLen: int, sampleRate: int, numChannels: int, bitDepth: int)
    requires bitDepth % 8 == 0
    ensures var h := Header(dataLen, sampleRate, numChannels, bitDepth);
      && h[0..4] == CodeUnitBytes("RIFF") && h[4..8] == LE32(dataLen + 36) && h[8..12] == CodeUnitBytes("WAVE")
      && h[12..16] == CodeUnitBytes("fmt ") && h[16..20] == LE32(16) && h[20..22] == LE16(1)
      && h[22..24] == LE16(numChannels) && h[24..28] == LE32(sampleRate)
      && h[28..32] == LE32(ByteRate(sampleRate, numChannels, bitDepth))
      && h[32..34] == LE16(BlockAlign(numChannels, bitDepth)) && h[34..36] == LE16(bitDepth)
      && h[36..40] == CodeUnitBytes("data") && h[40..44] == LE32(dataLen)
  {
    var h := Header(dataLen, sampleRate, numChannels, bitDepth);
    var riff, fmt, data := RiffDescriptor(dataLen), FmtChunk(sampleRate, numChannels, bitDepth), DataChunkHeader(dataLen);
    assert h[0..12] == riff && h[12..36] == fmt && h[36..44] == data;
    var front := CodeUnitBytes("fmt ") + LE32(FmtChunkSize) + LE16(PcmFormat) + LE16(numChannels)
      + LE32(sampleRate) + LE32(ByteRate(sampleRate, numChannels, bitDepth))
      + LE16(BlockAlign(numChannels, bitDepth));
    assert fmt == front + LE16(bitDepth) && |front| == 22;
    assert h[12..16] == fmt[0..4] && h[16..20] == fmt[4..8] && h[20..22] == fmt[8..10];
    assert h[22..24] == fmt[10..12] && h[24..28] == fmt[12..16] && h[28..32] == fmt[16..20];
    assert h[32..34] == fmt[20..22] && h[34..36] == fmt[22..24];
  }

  /**
   * `pcmToWav`: writes the 44-byte header field by field, then copies the
   * header and the PCM bytes into a fresh buffer of 44 + |pcm| bytes.
   */
  method PcmToWav(pcmData: array<byte>, sampleRate: int, numChannels: int, bitDepth: int)
    returns (wavBuffer: array<byte>)
    requires bitDepth % 8 == 0
    ensures fresh(wavBuffer)
    ensures wavBuffer[..] == Container(pcmData[..], sampleRate, numChannels, bitDepth)
  {
    var header := new byte[HeaderSize](_ => 0);
    var totalDataLen := pcmData.Length;
    var fileSize := totalDataLen + 36;
    ghost var h := Header(totalDataLen, sampleRate, numChannels, bitDepth);
    HeaderLayout(totalDataLen, sampleRate, numChannels, bitDepth);
    ghost var before := header[..];

    // RIFF chunk descriptor
    WriteString(header, 0, "RIFF");
    PrefixGrows(before, h, 0, CodeUnitBytes("RIFF"));
    before := header[..];
    SetUint32(header, 4, fileSize);
    PrefixGrows(before, h, 4, LE32(fileSize));
    before := header[..];
    WriteString(header, 8, "WAVE");
    PrefixGrows(before, h, 8, CodeUnitBytes("WAVE"));
    before := header[..];

    // "fmt " sub-chunk
    WriteString(header, 12, "fmt ");
    PrefixGrows(before, h, 12, CodeUnitBytes("fmt "));
    before := header[..];
    SetUint32(header, 16, 16);
    PrefixGrows(before, h, 16, LE32(16));
    before := header[..];
    SetUint16(header, 20, 1);
    PrefixGrows(before, h, 20, LE16(1));
    before := header[..];
    SetUint16(header, 22, numChannels);
    PrefixGrows(before, h, 22, LE16(numChannels));
    before := header[..];
    SetUint32(header, 24, sampleRate);
    PrefixGrows(before, h, 24, LE32(sampleRate));
    before := header[..];
    SetUint32(header, 28, sampleRate * numChannels * (bitDepth / 8));
    PrefixGrows(before, h, 28, LE32(ByteRate(sampleRate, numChannels, bitDepth)));
    before := header[..];
    SetUint16(header, 32, numChannels * (bitDepth / 8));
    PrefixGrows(before, h, 32, LE16(BlockAlign(numChannels, bitDepth)));
    before := header[..];
    SetUint16(header, 34, bitDepth);
    PrefixGrows(before, h, 34, LE16(bitDepth));
    before := header[..];

    // "data" sub-chunk
    WriteString(header, 36, "data");
    PrefixGrows(before, h, 36, CodeUnitBytes("data"));
    before := header[..];
    SetUint32(header, 40, totalDataLen);
    PrefixGrows(before, h, 40, LE32(totalDataLen));
    assert header[..] == h;

    // Combine header and data
    wavBuffer := new byte[header.Length + pcmData.Length](_ => 0);
    CopyInto(wavBuffer, header[..], 0);
    CopyInto(wavBuffer, pcmData[..], header.Length);
    assert wavBuffer[..] == h + pcmData[..];
  }
}
