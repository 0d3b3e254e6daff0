/**
 * The "base64url" encoding of section 5 of RFC 4648 ("URL and Filename safe"
 * alphabet), emitted without '=' padding, as the badge authority uses it for
 * transaction tokens (20 random bytes) and verification codes (8 random bytes).
 *
 * Only the encoder occurs in the system; the decoder is its partner and exists
 * to prove that encoding loses nothing, so that distinct random bytes always
 * give distinct tokens and codes.
 */
module Base64Url {
  import opened Wrappers

  /** An octet read as an unsigned value. */
  type byte = x: int | 0 <= x < 256

  /** A 6-bit group, the value of one output character. */
  type Sextet = x: int | 0 <= x < 64

  /** The 64 characters of the URL- and filename-safe alphabet. */
  predicate IsAlphabetChar(c: char) {
    ('A' <= c <= 'Z') || ('a' <= c <= 'z') || ('0' <= c <= '9') || c == '-' || c == '_'
  }

  /** Table 2 of RFC 4648: values 0-25 are 'A'-'Z', 26-51 'a'-'z', 52-61 '0'-'9', 62 '-', 63 '_'. */
  function CharOf(v: Sextet): (c: char)
    ensures IsAlphabetChar(c)
  {
    if v < 26 then (65 + v) as char
    else if v < 52 then (97 + v - 26) as char
    else if v < 62 then (48 + v - 52) as char
    else if v == 62 then '-'
    else '_'
  }

  /** The value of an alphabet character: the inverse of CharOf. */
  function ValueOf(c: char): (v: Sextet)
    requires IsAlphabetChar(c)
    ensures CharOf(v) == c
  {
    if 'A' <= c <= 'Z' then c as int - 65
    else if 'a' <= c <= 'z' then c as int - 97 + 26
    else if '0' <= c <= '9' then c as int - 48 + 52
    else if c == '-' then 62
    else 63
  }

  /** Number of characters for n input bytes when no padding is written. */
  function EncodedLength(n: nat): nat {
    (4 * n + 2) / 3
  }

  /** Three bytes become four characters, most significant bits first. */
  function EncodeGroup(b0: byte, b1: byte, b2: byte): string {
    [CharOf(b0 / 4), CharOf((b0 % 4) * 16 + b1 / 16), CharOf((b1 % 16) * 4 + b2 / 64), CharOf(b2 % 64)]
  }

  /** Unpadded base64url: a trailing single byte gives two characters, a trailing pair three. */
  function Encode(bytes: seq<byte>): (s: string)
    ensures |s| == EncodedLength(|bytes|)
    ensures forall i | 0 <= i < |s| :: IsAlphabetChar(s[i])
    decreases |bytes|
  {
    if |bytes| == 0 then []
    else if |bytes| == 1 then [CharOf(bytes[0] / 4), CharOf((bytes[0] % 4) * 16)]
    else if |bytes| == 2 then
      [CharOf(bytes[0] / 4), CharOf((bytes[0] % 4) * 16 + bytes[1] / 16), CharOf((bytes[1] % 16) * 4)]
    else EncodeGroup(bytes[0], bytes[1], bytes[2]) + Encode(bytes[3..])
  }

  /** The three bytes carried by four sextets. */
  function DecodeGroup(v0: Sextet, v1: Sextet, v2: Sextet, v3: Sextet): seq<byte> {
    [v0 * 4 + v1 / 16, (v1 % 16) * 16 + v2 / 4, (v2 % 4) * 64 + v3]
  }

  /**
   * Unpadded base64url decoding; None for a character outside the alphabet or
   * for a length that no byte string encodes to.
   */
  function Decode(s: string): (r: Option<seq<byte>>)
    ensures r.Some? ==> |s| == EncodedLength(|r.value|)
    ensures r.Some? ==> forall i | 0 <= i < |s| :: IsAlphabetChar(s[i])
    decreases |s|
  {
    if |s| == 0 then Some([])
    else if |s| == 1 || !IsAlphabetChar(s[0]) || !IsAlphabetChar(s[1]) then None
    else if |s| == 2 then
      Some([ValueOf(s[0]) * 4 + ValueOf(s[1]) / 16])
    else if !IsAlphabetChar(s[2]) then None
    else if |s| == 3 then
      Some([ValueOf(s[0]) * 4 + ValueOf(s[1]) / 16, (ValueOf(s[1]) % 16) * 16 + ValueOf(s[2]) / 4])
    else if !IsAlphabetChar(s[3]) then None
    else
      match Decode(s[4..])
      case None => None
      case Some(rest) =>
        Some(DecodeGroup(ValueOf(s[0]), ValueOf(s[1]), ValueOf(s[2]), ValueOf(s[3])) + rest)
  }

  /** Splitting three bytes into sextets and joining them again gives the bytes back. */
  lemma GroupRoundTrip(b0: byte, b1: byte, b2: byte)
    ensures DecodeGroup(b0 / 4, (b0 % 4) * 16 + b1 / 16, (b1 % 16) * 4 + b2 / 64, b2 % 64) == [b0, b1, b2]
  {
    var hi0, lo0 := b0 / 4, b0 % 4;
    var hi1, lo1 := b1 / 16, b1 % 16;
    var hi2, lo2 := b2 / 64, b2 % 64;
    assert (lo0 * 16 + hi1) / 16 == lo0 && (lo0 * 16 + hi1) % 16 == hi1;
    assert (lo1 * 4 + hi2) / 4 == lo1 && (lo1 * 4 + hi2) % 4 == hi2;
  }

  /** A lone trailing byte survives its two-character encoding. */
  lemma DecodeEncodeOne(b0: byte)
    ensures Decode(Encode([b0])) == Some([b0])
  {
    var lo := b0 % 4;
    ValueOfCharOf(b0 / 4);
    ValueOfCharOf(lo * 16);
    assert Encode([b0]) == [CharOf(b0 / 4), CharOf(lo * 16)];
    assert (lo * 16) / 16 == lo;
  }

  /** The three sextets of a trailing pair join back into the pair. */
  lemma PairRoundTrip(b0: byte, b1: byte)
    ensures (b0 % 4) * 16 + b1 / 16 < 64 && (b1 % 16) * 4 < 64
    ensures [(b0 / 4) * 4 + ((b0 % 4) * 16 + b1 / 16) / 16,
             (((b0 % 4) * 16 + b1 / 16) % 16) * 16 + ((b1 % 16) * 4) / 4] == [b0, b1]
  {
    var lo0, hi1, lo1 := b0 % 4, b1 / 16, b1 % 16;
    assert (lo0 * 16 + hi1) / 16 == lo0 && (lo0 * 16 + hi1) % 16 == hi1;
    assert (lo1 * 4) / 4 == lo1;
  }

  /** Three alphabet characters decode to the two bytes their sextets carry. */
  lemma DecodeThree(v0: Sextet, v1: Sextet, v2: Sextet)
    ensures Decode([CharOf(v0), CharOf(v1), CharOf(v2)]) == Some([v0 * 4 + v1 / 16, (v1 % 16) * 16 + v2 / 4])
  {
    ValueOfCharOf(v0);
    ValueOfCharOf(v1);
    ValueOfCharOf(v2);
  }

  /** A trailing pair is written as three characters. */
  lemma EncodeTwo(b0: byte, b1: byte)
    ensures Encode([b0, b1]) == [CharOf(b0 / 4), CharOf((b0 % 4) * 16 + b1 / 16), CharOf((b1 % 16) * 4)]
  {
  }

  /** A trailing pair of bytes survives its three-character encoding. */
  lemma DecodeEncodeTwo(b0: byte, b1: byte)
    ensures Decode(Encode([b0, b1])) == Some([b0, b1])
  {
    PairRoundTrip(b0, b1);
    EncodeTwo(b0, b1);
    DecodeThree(b0 / 4, (b0 % 4) * 16 + b1 / 16, (b1 % 16) * 4);
  }

  /** Reading a character back gives the value it was written for. */
  lemma ValueOfCharOf(v: Sextet)
    ensures ValueOf(CharOf(v)) == v
  {
  }

  /** Decoding a full group in front of a decodable rest. */
  lemma DecodeFullGroup(g: string, rest: string, tail: seq<byte>)
    requires |g| == 4 && forall i | 0 <= i < 4 :: IsAlphabetChar(g[i])
    requires Decode(rest) == Some(tail)
    ensures Decode(g + rest) == Some(DecodeGroup(ValueOf(g[0]), ValueOf(g[1]), ValueOf(g[2]), ValueOf(g[3])) + tail)
  {
    var s := g + rest;
    assert s[..4] == g && s[4..] == rest;
  }

  /** The four characters of a full group read back as the sextets they were written for. */
  lemma EncodeGroupValues(b0: byte, b1: byte, b2: byte)
    ensures var g := EncodeGroup(b0, b1, b2);
      && |g| == 4 && (forall i | 0 <= i < 4 :: IsAlphabetChar(g[i]))
      && DecodeGroup(ValueOf(g[0]), ValueOf(g[1]), ValueOf(g[2]), ValueOf(g[3])) == [b0, b1, b2]
  {
    var v0, v1, v2, v3 := b0 / 4, (b0 % 4) * 16 + b1 / 16, (b1 % 16) * 4 + b2 / 64, b2 % 64;
    ValueOfCharOf(v0);
    ValueOfCharOf(v1);
    ValueOfCharOf(v2);
    ValueOfCharOf(v3);
    GroupRoundTrip(b0, b1, b2);
  }

  /** Encoding three or more bytes writes the first group in front of the rest's encoding. */
  lemma EncodeFirstGroup(bytes: seq<byte>)
    requires |bytes| >= 3
    ensures Encode(bytes) == EncodeGroup(bytes[0], bytes[1], bytes[2]) + Encode(bytes[3..])
  {
  }

  /** A full group in front of a tail that round-trips round-trips too. */
  lemma DecodeEncodeGroup(b0: byte, b1: byte, b2: byte, tail: seq<byte>)
    requires Decode(Encode(tail)) == Some(tail)
    ensures Decode(EncodeGroup(b0, b1, b2) + Encode(tail)) == Some([b0, b1, b2] + tail)
  {
    EncodeGroupValues(b0, b1, b2);
    DecodeFullGroup(EncodeGroup(b0, b1, b2), Encode(tail), tail);
  }

  /** A sequence of three or more bytes is its first three bytes followed by the rest. */
  lemma SplitFirstGroup(bytes: seq<byte>)
    requires |bytes| >= 3
    ensures bytes == [bytes[0], bytes[1], bytes[2]] + bytes[3..]
  {
  }

  /** Decoding inverts encoding (RFC 4648, section 5, read without padding). */
  lemma {:induction false} DecodeEncode(bytes: seq<byte>)
    ensures Decode(Encode(bytes)) == Some(bytes)
    decreases |bytes|
  {
    if |bytes| == 1 {
      DecodeEncodeOne(bytes[0]);
      assert bytes == [bytes[0]];
    } else if |bytes| == 2 {
      DecodeEncodeTwo(bytes[0], bytes[1]);
      assert bytes == [bytes[0], bytes[1]];
    } else if |bytes| >= 3 {
      var tail := bytes[3..];
      DecodeEncode(tail);
      EncodeFirstGroup(bytes);
      DecodeEncodeGroup(bytes[0], bytes[1], bytes[2], tail);
      SplitFirstGroup(bytes);
    }
  }

  /** Distinct byte strings have distinct encodings. */
  lemma EncodeInjective(a: seq<byte>, b: seq<byte>)
    requires Encode(a) == Encode(b)
    ensures a == b
  {
    DecodeEncode(a);
    DecodeEncode(b);
  }
}
