/**
 * Character-level encodings the core applies: UTF-8 (RFC 3629), `encodeURIComponent`
 * (percent-encoding, section 2.1 of RFC 3986, over UTF-8) and base64 (section 4 of RFC 4648).
 */
module Encoding {
  import opened Wrappers

  newtype byte = x: int | 0 <= x < 256

  /** The UTF-8 bytes of one Unicode scalar value. */
  function Utf8Char(c: char): (r: seq<byte>)
    ensures 1 <= |r| <= 4
    ensures |r| == 1 <==> c as int < 0x80
    ensures |r| == 1 ==> r[0] as int == c as int
  {
    var n := c as int;
    if n < 0x80 then [n as byte]
    else if n < 0x800 then [(0xC0 + n / 64) as byte, (0x80 + n % 64) as byte]
    else if n < 0x10000 then [(0xE0 + n / 4096) as byte, (0x80 + (n / 64) % 64) as byte, (0x80 + n % 64) as byte]
    else [(0xF0 + n / 262144) as byte, (0x80 + (n / 4096) % 64) as byte, (0x80 + (n / 64) % 64) as byte, (0x80 + n % 64) as byte]
  }

  /** The UTF-8 encoding of a string (what `Buffer.from(s)` holds). */
  function Utf8(s: string): seq<byte> {
    if s == [] then [] else Utf8Char(s[0]) + Utf8(s[1..])
  }

  /** The characters `encodeURIComponent` leaves as they are. */
  predicate Unreserved(c: char) {
    || 'A' <= c <= 'Z' || 'a' <= c <= 'z' || '0' <= c <= '9'
    || c == '-' || c == '_' || c == '.' || c == '!' || c == '~' || c == '*' || c == '\'' || c == '(' || c == ')'
  }

  predicate IsUpperHex(c: char) {
    '0' <= c <= '9' || 'A' <= c <= 'F'
  }

  /** The upper-case hexadecimal digit of `v`. */
  function HexDigit(v: int): (c: char)
    requires 0 <= v < 16
    ensures IsUpperHex(c)
  {
    if v < 10 then ('0' as int + v) as char else ('A' as int + v - 10) as char
  }

  /** The value of a hexadecimal digit of either case, or -1. */
  function HexValue(c: char): (v: int)
    ensures -1 <= v < 16
  {
    if '0' <= c <= '9' then c as int - '0' as int
    else if 'A' <= c <= 'F' then c as int - 'A' as int + 10
    else if 'a' <= c <= 'f' then c as int - 'a' as int + 10
    else -1
  }

  /** `%XY` for one byte. */
  function PercentByte(b: byte): (r: string)
    ensures |r| == 3 && r[0] == '%' && IsUpperHex(r[1]) && IsUpperHex(r[2])
  {
    ['%', HexDigit(b as int / 16), HexDigit(b as int % 16)]
  }

  /** `%XY` for every byte. */
  function PercentBytes(bs: seq<byte>): (r: string)
    ensures |r| == 3 * |bs|
    ensures forall i :: 0 <= i < |r| ==> r[i] == '%' || IsUpperHex(r[i])
  {
    if bs == [] then [] else PercentByte(bs[0]) + PercentBytes(bs[1..])
  }

  /** Every character is unreserved, `%` or an upper-case hexadecimal digit: the result carries
      no `:`, `/`, `?`, `#`, `&`, `=` or whitespace. */
  predicate UriSafe(s: string) {
    forall i :: 0 <= i < |s| ==> Unreserved(s[i]) || s[i] == '%' || IsUpperHex(s[i])
  }

  function EncodeChar(c: char): (r: string)
    ensures UriSafe(r)
  {
    if Unreserved(c) then [c] else PercentBytes(Utf8Char(c))
  }

  /** `encodeURIComponent(s)` on a string of Unicode scalar values. */
  function EncodeURIComponent(s: string): (r: string)
    ensures UriSafe(r)
    ensures |s| <= |r|
  {
    if s == [] then [] else EncodeChar(s[0]) + EncodeURIComponent(s[1..])
  }

  /** Decoding to bytes: `%XY` gives the byte it names, any other character its UTF-8 bytes. */
  function PercentDecode(e: string): seq<byte>
    decreases |e|
  {
    if e == [] then []
    else if e[0] == '%' && |e| >= 3 && HexValue(e[1]) >= 0 && HexValue(e[2]) >= 0 then
      [(HexValue(e[1]) * 16 + HexValue(e[2])) as byte] + PercentDecode(e[3..])
    else Utf8Char(e[0]) + PercentDecode(e[1..])
  }

  lemma HexRoundTrip(v: int)
    requires 0 <= v < 16
    ensures HexValue(HexDigit(v)) == v
  {
  }

  /** One `%XY` decodes to the byte it names. */
  lemma DecodePercentByte(b: byte, rest: string)
    ensures PercentDecode(PercentByte(b) + rest) == [b] + PercentDecode(rest)
  {
    var e := PercentByte(b) + rest;
    HexRoundTrip(b as int / 16);
    HexRoundTrip(b as int % 16);
    assert e[3..] == rest;
  }

  lemma {:induction false} DecodePercentBytes(bs: seq<byte>, rest: string)
    ensures PercentDecode(PercentBytes(bs) + rest) == bs + PercentDecode(rest)
  {
    if bs != [] {
      var b, t := bs[0], bs[1..];
      var e := PercentBytes(t);
      assert bs == [b] + t;
      assert PercentBytes(bs) == PercentByte(b) + e;
      DecodePercentBytes(t, rest);
      DecodePercentStep(b, e, rest, t);
    } else {
      assert PercentBytes(bs) + rest == rest;
    }
  }

  lemma DecodePercentStep(b: byte, e: string, rest: string, t: seq<byte>)
    requires PercentDecode(e + rest) == t + PercentDecode(rest)
    ensures PercentDecode(PercentByte(b) + e + rest) == [b] + t + PercentDecode(rest)
  {
    AppendAssoc(PercentByte(b), e, rest);
    DecodePercentByte(b, e + rest);
    AppendAssoc([b], t, PercentDecode(rest));
  }

  /** Percent-decoding undoes `encodeURIComponent`: the bytes recovered are the UTF-8 bytes of the input. */
  lemma {:induction false} DecodeEncodeURIComponent(s: string)
    ensures PercentDecode(EncodeURIComponent(s)) == Utf8(s)
  {
    if s != [] {
      var rest := EncodeURIComponent(s[1..]);
      if Unreserved(s[0]) {
        assert EncodeURIComponent(s) == [s[0]] + rest;
        assert ([s[0]] + rest)[1..] == rest;
      } else {
        DecodePercentBytes(Utf8Char(s[0]), rest);
      }
      DecodeEncodeURIComponent(s[1..]);
    }
  }

  /** The base64 alphabet of Table 1 in RFC 4648. */
  function B64Digit(v: int): char
    requires 0 <= v < 64
  {
    if v < 26 then ('A' as int + v) as char
    else if v < 52 then ('a' as int + v - 26) as char
    else if v < 62 then ('0' as int + v - 52) as char
    else if v == 62 then '+' else '/'
  }

  /** The value of a base64 digit, or -1 (also for the pad character `=`). */
  function B64Value(c: char): (v: int)
    ensures -1 <= v < 64
  {
    if 'A' <= c <= 'Z' then c as int - 'A' as int
    else if 'a' <= c <= 'z' then c as int - 'a' as int + 26
    else if '0' <= c <= '9' then c as int - '0' as int + 52
    else if c == '+' then 62
    else if c == '/' then 63
    else -1
  }

  /** Three bytes as four digits: their 24 bits in groups of six, high bits first. */
  function FullGroup(b0: byte, b1: byte, b2: byte): (r: string)
    ensures |r| == 4
  {
    var x0, x1, x2 := b0 as int, b1 as int, b2 as int;
    [B64Digit(x0 / 4), B64Digit((x0 % 4) * 16 + x1 / 16), B64Digit((x1 % 16) * 4 + x2 / 64), B64Digit(x2 % 64)]
  }

  /** A final single byte: two digits, the low four bits zero, and two pads. */
  function OneByteGroup(b0: byte): (r: string)
    ensures |r| == 4
  {
    var x0 := b0 as int;
    [B64Digit(x0 / 4), B64Digit((x0 % 4) * 16), '=', '=']
  }

  /** A final pair of bytes: three digits, the low two bits zero, and one pad. */
  function TwoByteGroup(b0: byte, b1: byte): (r: string)
    ensures |r| == 4
  {
    var x0, x1 := b0 as int, b1 as int;
    [B64Digit(x0 / 4), B64Digit((x0 % 4) * 16 + x1 / 16), B64Digit((x1 % 16) * 4), '=']
  }

  /** Base64 with padding (section 4 of RFC 4648): each 3 bytes become 4 digits, a final group of
      1 or 2 bytes is padded with `=` to 4 characters. */
  function Base64(bs: seq<byte>): (r: string)
    ensures |r| == 4 * ((|bs| + 2) / 3)
  {
    if |bs| == 0 then []
    else if |bs| == 1 then OneByteGroup(bs[0])
    else if |bs| == 2 then TwoByteGroup(bs[0], bs[1])
    else FullGroup(bs[0], bs[1], bs[2]) + Base64(bs[3..])
  }

  /** Strict base64 decoding: `None` for a length that is not a multiple of 4, a character outside
      the alphabet, misplaced padding or non-zero padding bits. */
  function Base64Decode(s: string): Option<seq<byte>>
    decreases |s|
  {
    if |s| == 0 then Some([])
    else if |s| < 4 then None
    else
      var v0, v1, v2, v3 := B64Value(s[0]), B64Value(s[1]), B64Value(s[2]), B64Value(s[3]);
      if v0 < 0 || v1 < 0 then None
      else if s[2] == '=' && s[3] == '=' then
        if |s| == 4 && v1 % 16 == 0 then Some([(v0 * 4 + v1 / 16) as byte]) else None
      else if v2 < 0 then None
      else if s[3] == '=' then
        if |s| == 4 && v2 % 4 == 0 then Some([(v0 * 4 + v1 / 16) as byte, ((v1 % 16) * 16 + v2 / 4) as byte]) else None
      else if v3 < 0 then None
      else
        match Base64Decode(s[4..])
        case None => None
        case Some(rest) =>
          Some([(v0 * 4 + v1 / 16) as byte, ((v1 % 16) * 16 + v2 / 4) as byte, ((v2 % 4) * 64 + v3) as byte] + rest)
  }

  lemma DigitValue(v: int)
    requires 0 <= v < 64
    ensures B64Value(B64Digit(v)) == v && B64Digit(v) != '='
  {
  }

  /** The bit arithmetic of one 3-byte group: the four 6-bit digits give back the bytes. */
  lemma GroupArithmetic(b0: int, b1: int, b2: int)
    requires 0 <= b0 < 256 && 0 <= b1 < 256 && 0 <= b2 < 256
    ensures (b0 / 4) * 4 + ((b0 % 4) * 16 + b1 / 16) / 16 == b0
    ensures (((b0 % 4) * 16 + b1 / 16) % 16) * 16 + ((b1 % 16) * 4 + b2 / 64) / 4 == b1
    ensures (((b1 % 16) * 4 + b2 / 64) % 4) * 64 + b2 % 64 == b2
    ensures ((b0 % 4) * 16) % 16 == 0 && (b0 / 4) * 4 + ((b0 % 4) * 16) / 16 == b0
    ensures ((b1 % 16) * 4) % 4 == 0 && (((b0 % 4) * 16 + b1 / 16) % 16) * 16 + ((b1 % 16) * 4) / 4 == b1
  {
  }

  /** One full group followed by more text decodes to its three bytes and then the rest. */
  lemma DecodeFullGroup(b0: byte, b1: byte, b2: byte, rest: string)
    ensures Base64Decode(FullGroup(b0, b1, b2) + rest)
         == match Base64Decode(rest)
            case None => None
            case Some(r) => Some([b0, b1, b2] + r)
  {
    var x0, x1, x2 := b0 as int, b1 as int, b2 as int;
    GroupArithmetic(x0, x1, x2);
    DigitValue(x0 / 4);
    DigitValue((x0 % 4) * 16 + x1 / 16);
    DigitValue((x1 % 16) * 4 + x2 / 64);
    DigitValue(x2 % 64);
    var s := FullGroup(b0, b1, b2) + rest;
    assert s[4..] == rest;
  }

  /** A final group of one byte (two digits and two pads) decodes to that byte. */
  lemma DecodeOneByteGroup(b0: byte)
    ensures Base64Decode(OneByteGroup(b0)) == Some([b0])
  {
    var x0 := b0 as int;
    GroupArithmetic(x0, 0, 0);
    DigitValue(x0 / 4);
    DigitValue((x0 % 4) * 16);
  }

  /** A final group of two bytes (three digits and one pad) decodes to those bytes. */
  lemma DecodeTwoByteGroup(b0: byte, b1: byte)
    ensures Base64Decode(TwoByteGroup(b0, b1)) == Some([b0, b1])
  {
    var x0, x1 := b0 as int, b1 as int;
    GroupArithmetic(x0, x1, 0);
    DigitValue(x0 / 4);
    DigitValue((x0 % 4) * 16 + x1 / 16);
    DigitValue((x1 % 16) * 4);
  }

  /** Base64 of more than two bytes: one full group, then the base64 of the remaining bytes. */
  lemma Base64Front(bs: seq<byte>)
    requires |bs| > 2
    ensures Base64(bs) == FullGroup(bs[0], bs[1], bs[2]) + Base64(bs[3..])
  {
  }

  /** One full group in front of text that decodes to `tail` decodes to the group's bytes and then `tail`. */
  lemma DecodeAfterGroup(b0: byte, b1: byte, b2: byte, rest: string, tail: seq<byte>)
    requires Base64Decode(rest) == Some(tail)
    ensures Base64Decode(FullGroup(b0, b1, b2) + rest) == Some([b0, b1, b2] + tail)
  {
    DecodeFullGroup(b0, b1, b2, rest);
  }

  /** One byte makes a final group with two pads, which decodes back to it. */
  lemma Base64RoundTripOne(bs: seq<byte>)
    requires |bs| == 1
    ensures Base64Decode(Base64(bs)) == Some(bs)
  {
    assert Base64(bs) == OneByteGroup(bs[0]);
    DecodeOneByteGroup(bs[0]);
    assert bs == [bs[0]];
  }

  /** Two bytes make a final group with one pad, which decodes back to them. */
  lemma Base64RoundTripTwo(bs: seq<byte>)
    requires |bs| == 2
    ensures Base64Decode(Base64(bs)) == Some(bs)
  {
    assert Base64(bs) == TwoByteGroup(bs[0], bs[1]);
    DecodeTwoByteGroup(bs[0], bs[1]);
    assert bs == [bs[0], bs[1]];
  }

  /** Decoding base64 gives back the bytes that were encoded. */
  lemma {:induction false} Base64RoundTrip(bs: seq<byte>)
    ensures Base64Decode(Base64(bs)) == Some(bs)
  {
    if |bs| == 1 {
      Base64RoundTripOne(bs);
    } else if |bs| == 2 {
      Base64RoundTripTwo(bs);
    } else if |bs| > 2 {
      var tail := bs[3..];
      assert bs == [bs[0], bs[1], bs[2]] + tail;
      Base64Front(bs);
      Base64RoundTrip(tail);
      DecodeAfterGroup(bs[0], bs[1], bs[2], Base64(tail), tail);
    }
  }
}
