/**
 * `atob`, the browser built-in that `generateSpeech` applies to the audio
 * payload: the "forgiving-base64 decode" of the WHATWG Infra Standard over
 * the base64 alphabet of section 4 of RFC 4648. It strips ASCII whitespace,
 * drops one or two trailing '=' from input whose length is a multiple of
 * four, rejects a length of 1 modulo 4 and any character outside the
 * alphabet, and turns each character into six bits, discarding the leftover
 * bits of a final partial group. The result is a binary string, one code
 * unit per decoded byte.
 *
 * `Encode` is the padded encoding of RFC 4648 section 4, as `btoa` produces
 * it; the decoder is proved to invert it (decoding an encoding gives back the
 * bytes).
 */
module Base64 {
  import opened Wrappers
  import opened Bytes

  /** A six-bit value: one base64 character's worth. */
  type sextet = v: int | 0 <= v < 64

  /** ASCII whitespace: TAB, LF, FF, CR and SPACE. */
  predicate IsAsciiWhitespace(c: char) {
    c == '\t' || c == '\n' || c as int == 0x0C || c == '\r' || c == ' '
  }

  /** The input with every ASCII whitespace character removed, order kept. */
  function StripWhitespace(s: string): (r: string)
    ensures |r| <= |s|
    ensures forall i :: 0 <= i < |r| ==> !IsAsciiWhitespace(r[i])
  {
    if s == [] then []
    else (if IsAsciiWhitespace(s[0]) then [] else [s[0]]) + StripWhitespace(s[1..])
  }

  /** The value of a character of the base64 alphabet, or None outside it. */
  function SextetOf(c: char): (r: Option<sextet>)
  {
    if 'A' <= c <= 'Z' then Some(c as int - 'A' as int)
    else if 'a' <= c <= 'z' then Some(c as int - 'a' as int + 26)
    else if '0' <= c <= '9' then Some(c as int - '0' as int + 52)
    else if c == '+' then Some(62)
    else if c == '/' then Some(63)
    else None
  }

  /** The alphabet character for a six-bit value. */
  function AlphabetChar(v: sextet): (c: char)
  {
    if v < 26 then ('A' as int + v) as char
    else if v < 52 then ('a' as int + v - 26) as char
    else if v < 62 then ('0' as int + v - 52) as char
    else if v == 62 then '+'
    else '/'
  }

  /** The alphabet is a bijection between six-bit values and its 64 characters. */
  lemma AlphabetRoundTrip(v: sextet)
    ensures SextetOf(AlphabetChar(v)) == Some(v)
    ensures AlphabetChar(v) != '=' && !IsAsciiWhitespace(AlphabetChar(v))
  {
  }

  /** Every character of the alphabet is the character of its value. */
  lemma AlphabetOfSextet(c: char)
    requires SextetOf(c).Some?
    ensures AlphabetChar(SextetOf(c).value) == c
  {
  }

  /** The values of a string's characters, or None if one lies outside the alphabet. */
  function SextetsOf(s: string): (r: Option<seq<sextet>>)
    ensures r.Some? ==> |r.value| == |s|
    ensures r.None? <==> exists i :: 0 <= i < |s| && SextetOf(s[i]).None?
  {
    if s == [] then Some([])
    else match (SextetOf(s[0]), SextetsOf(s[1..]))
      case (Some(v), Some(vs)) => Some([v] + vs)
      case (None, _) => None
      case (_, None) =>
        assert forall i :: 1 <= i < |s| ==> s[i] == s[1..][i - 1];
        None
  }

  // The three bytes of a group of four sextets s0 s1 s2 s3: eight bits each,
  // read across the sextet boundaries.
  function FirstByte(s0: sextet, s1: sextet): byte { s0 * 4 + s1 / 16 }
  function SecondByte(s1: sextet, s2: sextet): byte { s1 % 16 * 16 + s2 / 4 }
  function ThirdByte(s2: sextet, s3: sextet): byte { s2 % 4 * 64 + s3 }

  /**
   * Sextets to bytes, four characters to three bytes; a final group of two
   * or three characters gives one or two bytes and its leftover low bits are
   * discarded.
   */
  function DecodeSextets(v: seq<sextet>): (r: seq<byte>)
    requires |v| % 4 != 1
    ensures |r| == |v| / 4 * 3 + (if |v| % 4 == 0 then 0 else |v| % 4 - 1)
  {
    if |v| == 0 then []
    else if |v| == 2 then [FirstByte(v[0], v[1])]
    else if |v| == 3 then [FirstByte(v[0], v[1]), SecondByte(v[1], v[2])]
    else [FirstByte(v[0], v[1]), SecondByte(v[1], v[2]), ThirdByte(v[2], v[3])] + DecodeSextets(v[4..])
  }

  /** Padding removal: one or two trailing '=' go when the length is a multiple of four. */
  function StripPadding(s: string): (r: string)
    ensures r <= s && |s| - 2 <= |r|
    ensures forall i :: |r| <= i < |s| ==> s[i] == '='
    ensures |r| < |s| ==> |s| % 4 == 0
  {
    if |s| % 4 == 0 && |s| >= 2 && s[|s| - 2..] == "==" then s[..|s| - 2]
    else if |s| % 4 == 0 && |s| >= 1 && s[|s| - 1] == '=' then s[..|s| - 1]
    else s
  }

  /** `atob(data)`: the decoded binary string, or None where `atob` throws. */
  function Atob(data: string): (r: Option<string>)
    ensures r.Some? ==> IsBinaryString(r.value)
  {
    var s := StripPadding(StripWhitespace(data));
    if |s| % 4 == 1 then None
    else match SextetsOf(s)
      case None => None
      case Some(v) =>
        CodeUnitBytesOfBinaryString(DecodeSextets(v));
        Some(BinaryString(DecodeSextets(v)))
  }

  // The four sextets of a group of three bytes b0 b1 b2: six bits each, read
  // across the byte boundaries; a missing byte counts as zero.
  function FirstSextet(b0: byte): sextet { b0 / 4 }
  function SecondSextet(b0: byte, b1: byte): sextet { b0 % 4 * 16 + b1 / 16 }
  function ThirdSextet(b1: byte, b2: byte): sextet { b1 % 16 * 4 + b2 / 64 }
  function FourthSextet(b2: byte): sextet { b2 % 64 }

  /** The unpadded sextets of the encoding: three bytes to four sextets, a final one or two bytes to two or three. */
  function EncodeSextets(b: seq<byte>): (r: seq<sextet>)
    ensures |r| % 4 == (if |b| % 3 == 0 then 0 else |b| % 3 + 1)
  {
    if |b| == 0 then []
    else if |b| == 1 then [FirstSextet(b[0]), SecondSextet(b[0], 0)]
    else if |b| == 2 then [FirstSextet(b[0]), SecondSextet(b[0], b[1]), ThirdSextet(b[1], 0)]
    else
      var rest := EncodeSextets(b[3..]);
      assert |b| % 3 == |b[3..]| % 3;
      [FirstSextet(b[0]), SecondSextet(b[0], b[1]), ThirdSextet(b[1], b[2]), FourthSextet(b[2])] + rest
  }

  /** The alphabet characters of a sextet sequence. */
  function Chars(v: seq<sextet>): (s: string)
    ensures |s| == |v|
  {
    seq(|v|, i requires 0 <= i < |v| => AlphabetChar(v[i]))
  }

  /** The '=' padding that brings the encoding to a multiple of four characters. */
  function Padding(n: nat): string
  {
    if n % 3 == 1 then "==" else if n % 3 == 2 then "=" else ""
  }

  /** The padded base64 encoding of section 4 of RFC 4648. */
  function Encode(b: seq<byte>): (s: string)
    ensures |s| % 4 == 0
  {
    var v := EncodeSextets(b);
    assert |Padding(|b|)| == (if |b| % 3 == 0 then 0 else 3 - |b| % 3);
    Chars(v) + Padding(|b|)
  }

  /** One group: the sextets of three bytes decode back to those bytes. */
  lemma GroupRoundTrip(b0: byte, b1: byte, b2: byte)
    ensures FirstByte(FirstSextet(b0), SecondSextet(b0, b1)) == b0
    ensures SecondByte(SecondSextet(b0, b1), ThirdSextet(b1, b2)) == b1
    ensures ThirdByte(ThirdSextet(b1, b2), FourthSextet(b2)) == b2
  {
    assert (b0 % 4 * 16 + b1 / 16) / 16 == b0 % 4;
    assert (b0 % 4 * 16 + b1 / 16) % 16 == b1 / 16;
    assert (b1 % 16 * 4 + b2 / 64) / 4 == b1 % 16;
    assert (b1 % 16 * 4 + b2 / 64) % 4 == b2 / 64;
  }

  /** Decoding the sextets of an encoding gives back the bytes. */
  lemma {:induction false} DecodeEncodeSextets(b: seq<byte>)
    ensures DecodeSextets(EncodeSextets(b)) == b
  {
    if |b| == 1 {
      TailRoundTrip(b);
    } else if |b| == 2 {
      TailRoundTrip(b);
    } else if |b| >= 3 {
      assert b == [b[0], b[1], b[2]] + b[3..];
      LeadingGroup(b);
      DecodeEncodeSextets(b[3..]);
      GroupRoundTrip(b[0], b[1], b[2]);
    }
  }

  /** A final one or two bytes survive their partial group. */
  lemma TailRoundTrip(b: seq<byte>)
    requires 1 <= |b| <= 2
    ensures DecodeSextets(EncodeSextets(b)) == b
  {
    if |b| == 1 {
      assert b == [b[0]];
      OneByteTail(b[0]);
      GroupRoundTrip(b[0], 0, 0);
    } else {
      assert b == [b[0], b[1]];
      TwoByteTail(b[0], b[1]);
      GroupRoundTrip(b[0], b[1], 0);
    }
  }

  /** A single byte is encoded as two sextets, which decode to one byte. */
  lemma OneByteTail(b0: byte)
    ensures DecodeSextets(EncodeSextets([b0])) == [FirstByte(FirstSextet(b0), SecondSextet(b0, 0))]
  {
    assert EncodeSextets([b0]) == [FirstSextet(b0), SecondSextet(b0, 0)];
  }

  /** Two bytes are encoded as three sextets, which decode to two bytes. */
  lemma TwoByteTail(b0: byte, b1: byte)
    ensures DecodeSextets(EncodeSextets([b0, b1])) ==
      [FirstByte(FirstSextet(b0), SecondSextet(b0, b1)), SecondByte(SecondSextet(b0, b1), ThirdSextet(b1, 0))]
  {
    assert EncodeSextets([b0, b1]) == [FirstSextet(b0), SecondSextet(b0, b1), ThirdSextet(b1, 0)];
  }

  /** The encoding of three or more bytes decodes group by group: the first group, then the rest. */
  lemma LeadingGroup(b: seq<byte>)
    requires |b| >= 3
    ensures DecodeSextets(EncodeSextets(b)) ==
      [FirstByte(FirstSextet(b[0]), SecondSextet(b[0], b[1])),
       SecondByte(SecondSextet(b[0], b[1]), ThirdSextet(b[1], b[2])),
       ThirdByte(ThirdSextet(b[1], b[2]), FourthSextet(b[2]))]
      + DecodeSextets(EncodeSextets(b[3..]))
  {
    var v := EncodeSextets(b);
    assert v == [FirstSextet(b[0]), SecondSextet(b[0], b[1]), ThirdSextet(b[1], b[2]), FourthSextet(b[2])] + EncodeSextets(b[3..]);
    assert v[4..] == EncodeSextets(b[3..]);
  }

  /** The characters of a sextet sequence map back to it. */
  lemma {:induction false} SextetsOfChars(v: seq<sextet>)
    ensures SextetsOf(Chars(v)) == Some(v)
  {
    if v != [] {
      AlphabetRoundTrip(v[0]);
      assert Chars(v)[1..] == Chars(v[1..]);
      SextetsOfChars(v[1..]);
      assert v == [v[0]] + v[1..];
    }
  }

  /** An encoding contains no whitespace, so stripping leaves it as it is. */
  lemma {:induction false} StripWhitespaceKeeps(s: string)
    requires forall i :: 0 <= i < |s| ==> !IsAsciiWhitespace(s[i])
    ensures StripWhitespace(s) == s
  {
    if s != [] {
      StripWhitespaceKeeps(s[1..]);
    }
  }

  /** Stripping works character by character: it distributes over concatenation. */
  lemma {:induction false} StripWhitespaceAppend(s: string, t: string)
    ensures StripWhitespace(s + t) == StripWhitespace(s) + StripWhitespace(t)
  {
    if s != [] {
      assert (s + t)[1..] == s[1..] + t;
      StripWhitespaceAppend(s[1..], t);
    } else {
      assert s + t == t;
    }
  }

  /** A single character is dropped exactly when it is ASCII whitespace, and kept otherwise. */
  lemma StripWhitespaceOne(c: char)
    ensures StripWhitespace([c]) == (if IsAsciiWhitespace(c) then [] else [c])
  {
    assert [c][1..] == [];
  }

  /** `atob` ignores ASCII whitespace wherever it occurs in its input. */
  lemma AtobIgnoresWhitespace(s: string, c: char, t: string)
    requires IsAsciiWhitespace(c)
    ensures Atob(s + [c] + t) == Atob(s + t)
  {
    StripWhitespaceAppend(s + [c], t);
    StripWhitespaceAppend(s, [c]);
    StripWhitespaceAppend(s, t);
    StripWhitespaceOne(c);
    assert StripWhitespace(s) + [] == StripWhitespace(s);
  }

  /** Removing the padding of an encoding leaves exactly its alphabet characters. */
  lemma StripPaddingOfEncode(b: seq<byte>)
    ensures StripPadding(Encode(b)) == Chars(EncodeSextets(b))
  {
    var v := EncodeSextets(b);
    if |v| > 0 {
      AlphabetRoundTrip(v[|v| - 1]);
      assert Chars(v)[|v| - 1] == AlphabetChar(v[|v| - 1]);
    }
    var s := Encode(b);
    assert s == Chars(v) + Padding(|b|);
    assert |s| % 4 == 0;
    StripPaddingOf(Chars(v), Padding(|b|));
  }

  /** Padding removal takes off exactly the padding of a padded string whose last character is not '='. */
  lemma StripPaddingOf(c: string, pad: string)
    requires |c + pad| % 4 == 0
    requires pad == "" || pad == "=" || pad == "=="
    requires |c| > 0 ==> c[|c| - 1] != '='
    ensures StripPadding(c + pad) == c
  {
    var s := c + pad;
    if pad == "==" {
      assert s[|s| - 2..] == "==";
      assert s[..|s| - 2] == c;
    } else if pad == "=" {
      assert s[|s| - 2] == c[|c| - 1];
      assert s[|s| - 2..] != "==";
      assert s[..|s| - 1] == c;
    } else if |c| > 0 {
      assert s == c;
      assert s[|s| - 1] == c[|c| - 1];
    }
  }

  /** The four bytes 00 01 02 03 encode as "AAECAw==": one full group and one byte padded with "==". */
  lemma EncodeFourBytes()
    ensures Encode([0, 1, 2, 3]) == "AAECAw=="
  {
    var b: seq<byte> := [0, 1, 2, 3];
    assert EncodeSextets(b[3..]) == [0, 48];
    assert EncodeSextets(b) == [0, 0, 4, 2, 0, 48];
  }

  /** `atob` inverts the padded encoding: decoding Encode(b) gives the binary string of b. */
  lemma AtobEncode(b: seq<byte>)
    ensures Atob(Encode(b)) == Some(BinaryString(b))
  {
    var s := Encode(b);
    forall i | 0 <= i < |s|
      ensures !IsAsciiWhitespace(s[i])
    {
      if i < |EncodeSextets(b)| {
        AlphabetRoundTrip(EncodeSextets(b)[i]);
      }
    }
    StripWhitespaceKeeps(s);
    StripPaddingOfEncode(b);
    SextetsOfChars(EncodeSextets(b));
    DecodeEncodeSextets(b);
  }
}
