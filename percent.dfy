/**
 * The byte-level helpers the resource model relies on: percent-decoding as
 * the `percent_encoding` crate does it (section 2.1 of RFC 3986), and the
 * UTF-8 well-formedness check of `str::from_utf8` (section 4 of RFC 3629).
 * Neither is code of this repository; both are here because the result
 * tree's hrefs are defined through them.
 */
module Percent {
  import opened Bytes

  const PercentSign: byte := 37

  predicate IsHexDigit(b: byte) {
    (48 <= b <= 57) || (65 <= b <= 70) || (97 <= b <= 102)
  }

  function HexValue(b: byte): (v: nat)
    requires IsHexDigit(b)
    ensures v < 16
  {
    if b <= 57 then (b - 48) as nat else if b <= 70 then (b - 55) as nat else (b - 87) as nat
  }

  /** The upper-case hex digit of `v`. */
  function HexDigit(v: nat): (b: byte)
    requires v < 16
    ensures IsHexDigit(b) && HexValue(b) == v
  {
    if v < 10 then (48 + v) as byte else (55 + v) as byte
  }

  /**
   * `percent_decode`: every '%' followed by two hex digits stands for the
   * byte they spell; every other byte, a lone '%' included, stands for itself.
   */
  function PercentDecode(s: seq<byte>): seq<byte>
    decreases |s|
  {
    if s == [] then []
    else if s[0] == PercentSign && |s| >= 3 && IsHexDigit(s[1]) && IsHexDigit(s[2]) then
      [(HexValue(s[1]) * 16 + HexValue(s[2])) as byte] + PercentDecode(s[3..])
    else [s[0]] + PercentDecode(s[1..])
  }

  /** An unreserved character of section 2.3 of RFC 3986, which never needs escaping. */
  predicate IsUnreserved(b: byte) {
    (65 <= b <= 90) || (97 <= b <= 122) || (48 <= b <= 57) || b == 45 || b == 46 || b == 95 || b == 126
  }

  /** One byte as it appears in a percent-encoded string. */
  function EncodeByte(b: byte): seq<byte> {
    if IsUnreserved(b) then [b] else [PercentSign, HexDigit(b as nat / 16), HexDigit(b as nat % 16)]
  }

  /** A reference encoder: escapes every byte that is not unreserved. */
  function PercentEncode(s: seq<byte>): seq<byte>
    decreases |s|
  {
    if s == [] then [] else EncodeByte(s[0]) + PercentEncode(s[1..])
  }

  /** Decoding never makes a string longer. */
  lemma {:induction false} DecodeNotLonger(s: seq<byte>)
    ensures |PercentDecode(s)| <= |s|
    decreases |s|
  {
    if s == [] {
    } else if s[0] == PercentSign && |s| >= 3 && IsHexDigit(s[1]) && IsHexDigit(s[2]) {
      DecodeNotLonger(s[3..]);
    } else {
      DecodeNotLonger(s[1..]);
    }
  }

  /** A string without '%' decodes to itself. */
  lemma {:induction false} DecodeWithoutPercent(s: seq<byte>)
    ensures PercentSign !in s ==> PercentDecode(s) == s
    decreases |s|
  {
    if s != [] && PercentSign !in s {
      assert s[0] != PercentSign;
      assert PercentSign !in s[1..];
      DecodeWithoutPercent(s[1..]);
    }
  }

  lemma DecodeEncodedByte(b: byte, rest: seq<byte>)
    ensures PercentDecode(EncodeByte(b) + rest) == [b] + PercentDecode(rest)
  {
    var s := EncodeByte(b) + rest;
    if IsUnreserved(b) {
      assert s[0] == b && s[1..] == rest;
    } else {
      assert s[..3] == [PercentSign, HexDigit(b as nat / 16), HexDigit(b as nat % 16)];
      assert s[3..] == rest;
    }
  }

  /** Decoding undoes encoding. */
  lemma {:induction false} DecodeEncode(s: seq<byte>)
    ensures PercentDecode(PercentEncode(s)) == s
    decreases |s|
  {
    if s != [] {
      DecodeEncodedByte(s[0], PercentEncode(s[1..]));
      DecodeEncode(s[1..]);
    }
  }

  predicate IsContinuation(b: byte) {
    0x80 <= b <= 0xBF
  }

  /**
   * The length of the well-formed UTF-8 sequence that starts `s`, or 0 when
   * `s` does not start with one (table 3-7 of the Unicode standard).
   */
  function Utf8SequenceLength(s: seq<byte>): (n: nat)
    requires s != []
    ensures n <= 4 && n <= |s|
  {
    var b := s[0];
    if b < 0x80 then 1
    else if 0xC2 <= b <= 0xDF then
      if |s| >= 2 && IsContinuation(s[1]) then 2 else 0
    else if b == 0xE0 then
      if |s| >= 3 && 0xA0 <= s[1] <= 0xBF && IsContinuation(s[2]) then 3 else 0
    else if (0xE1 <= b <= 0xEC) || b == 0xEE || b == 0xEF then
      if |s| >= 3 && IsContinuation(s[1]) && IsContinuation(s[2]) then 3 else 0
    else if b == 0xED then
      if |s| >= 3 && 0x80 <= s[1] <= 0x9F && IsContinuation(s[2]) then 3 else 0
    else if b == 0xF0 then
      if |s| >= 4 && 0x90 <= s[1] <= 0xBF && IsContinuation(s[2]) && IsContinuation(s[3]) then 4 else 0
    else if 0xF1 <= b <= 0xF3 then
      if |s| >= 4 && IsContinuation(s[1]) && IsContinuation(s[2]) && IsContinuation(s[3]) then 4 else 0
    else if b == 0xF4 then
      if |s| >= 4 && 0x80 <= s[1] <= 0x8F && IsContinuation(s[2]) && IsContinuation(s[3]) then 4 else 0
    else 0
  }

  /** `str::from_utf8` succeeds. */
  predicate ValidUtf8(s: seq<byte>)
    decreases |s|
  {
    s == [] || (Utf8SequenceLength(s) > 0 && ValidUtf8(s[Utf8SequenceLength(s)..]))
  }

  /** Every all-ASCII byte string is well-formed UTF-8. */
  lemma {:induction false} AsciiIsUtf8(s: seq<byte>)
    requires forall i :: 0 <= i < |s| ==> s[i] < 0x80
    ensures ValidUtf8(s)
    decreases |s|
  {
    if s != [] {
      AsciiIsUtf8(s[1..]);
    }
  }

  /** An encoded string is all ASCII. */
  lemma {:induction false} EncodeIsAscii(s: seq<byte>)
    ensures forall i :: 0 <= i < |PercentEncode(s)| ==> PercentEncode(s)[i] < 0x80
    decreases |s|
  {
    if s != [] {
      EncodeIsAscii(s[1..]);
    }
  }

  /** The bytes of a Rust `String`: always well-formed UTF-8. */
  type Text = s: seq<byte> | ValidUtf8(s) witness []

  /** A reference encoder onto `Text`: the percent-encoding of `x`, which decodes back to `x`. */
  function EncodeText(x: seq<byte>): (e: Text)
    ensures PercentDecode(e) == x
    ensures PercentSign in e ==> exists i :: 0 <= i < |x| && !IsUnreserved(x[i])
  {
    EncodeIsAscii(x);
    AsciiIsUtf8(PercentEncode(x));
    DecodeEncode(x);
    EncodeUnreservedIsIdentity(x);
    PercentEncode(x)
  }

  /** A string of unreserved bytes encodes to itself. */
  lemma {:induction false} EncodeUnreservedIsIdentity(x: seq<byte>)
    ensures (forall i :: 0 <= i < |x| ==> IsUnreserved(x[i])) ==> PercentEncode(x) == x
    decreases |x|
  {
    if x != [] {
      EncodeUnreservedIsIdentity(x[1..]);
    }
  }
}
