/** The encodings behind the Basic `Authorization` header: `new Buffer(s)`
    encodes the string as UTF-8, and `toString('base64')` applies the base64
    encoding of section 4 of RFC 4648, with `=` padding. */
module Encoding {
  import opened JsText

  newtype byte = x: int | 0 <= x < 256

  /** UTF-8 bytes of one Unicode scalar value. */
  function Utf8Char(c: char): (r: seq<byte>)
    ensures 1 <= |r| <= 4
    ensures c as int < 0x80 <==> |r| == 1
    ensures |r| == 1 ==> r[0] as int == c as int
  {
    var n := c as int;
    if n < 0x80 then [n as byte]
    else if n < 0x800 then [(0xC0 + n / 64) as byte, (0x80 + n % 64) as byte]
    else if n < 0x10000 then
      [(0xE0 + n / 4096) as byte, (0x80 + (n / 64) % 64) as byte, (0x80 + n % 64) as byte]
    else
      [(0xF0 + n / 262144) as byte, (0x80 + (n / 4096) % 64) as byte,
       (0x80 + (n / 64) % 64) as byte, (0x80 + n % 64) as byte]
  }

  function Utf8(s: string): seq<byte>
  {
    if s == [] then [] else Utf8Char(s[0]) + Utf8(s[1..])
  }

  predicate IsAscii(s: string)
  {
    forall i :: 0 <= i < |s| ==> s[i] as int < 0x80
  }

  /** An ASCII string encodes to its character codes, one byte each. */
  lemma {:induction false} Utf8Ascii(s: string)
    requires IsAscii(s)
    ensures |Utf8(s)| == |s|
    ensures forall i :: 0 <= i < |s| ==> Utf8(s)[i] as int == s[i] as int
  {
    if s != [] {
      Utf8Ascii(s[1..]);
      assert Utf8(s) == [s[0] as int as byte] + Utf8(s[1..]);
    }
  }

  lemma {:induction false} Utf8Append(a: string, b: string)
    ensures Utf8(a + b) == Utf8(a) + Utf8(b)
  {
    if a == [] {
      assert a + b == b;
    } else {
      assert (a + b)[1..] == a[1..] + b;
      Utf8Append(a[1..], b);
    }
  }

  /** The 64 characters of the base64 alphabet. */
  predicate InAlphabet(c: char)
  {
    IsAsciiAlnum(c) || c == '+' || c == '/'
  }

  /** Character `n` of the alphabet of Table 1 of RFC 4648. */
  function Sextet(n: int): (c: char)
    requires 0 <= n < 64
    ensures InAlphabet(c)
  {
    if n < 26 then ('A' as int + n) as char
    else if n < 52 then ('a' as int + n - 26) as char
    else if n < 62 then ('0' as int + n - 52) as char
    else if n == 62 then '+'
    else '/'
  }

  /** Position of a character in the alphabet; characters outside it read
      as 0. */
  function SextetValue(c: char): (n: nat)
    ensures n < 64
  {
    if 'A' <= c <= 'Z' then c as int - 'A' as int
    else if 'a' <= c <= 'z' then c as int - 'a' as int + 26
    else if '0' <= c <= '9' then c as int - '0' as int + 52
    else if c == '+' then 62
    else if c == '/' then 63
    else 0
  }

  lemma SextetRoundTrip(n: int)
    requires 0 <= n < 64
    ensures SextetValue(Sextet(n)) == n
  {
  }

  /** One group of three bytes becomes four characters. */
  function EncodeGroup(b0: byte, b1: byte, b2: byte): string
  {
    [Sextet(b0 as int / 4), Sextet((b0 as int % 4) * 16 + b1 as int / 16),
     Sextet((b1 as int % 16) * 4 + b2 as int / 64), Sextet(b2 as int % 64)]
  }

  /** Base64 with padding: `toString('base64')`. */
  function Encode(bs: seq<byte>): (r: string)
  {
    if |bs| == 0 then ""
    else if |bs| == 1 then
      [Sextet(bs[0] as int / 4), Sextet((bs[0] as int % 4) * 16), '=', '=']
    else if |bs| == 2 then
      [Sextet(bs[0] as int / 4), Sextet((bs[0] as int % 4) * 16 + bs[1] as int / 16),
       Sextet((bs[1] as int % 16) * 4), '=']
    else EncodeGroup(bs[0], bs[1], bs[2]) + Encode(bs[3..])
  }

  /** Four characters for every group of three bytes, the last group
      padded. */
  lemma {:induction false} EncodeLength(bs: seq<byte>)
    ensures |Encode(bs)| == 4 * ((|bs| + 2) / 3)
  {
    if |bs| >= 3 {
      EncodeLength(bs[3..]);
      EncodeStep(bs);
      GroupCount(|bs| - 3);
    }
  }

  lemma GroupCount(n: nat)
    ensures (n + 3 + 2) / 3 == (n + 2) / 3 + 1
  {
  }

  /** Decoding of padded base64, the inverse the encoding is checked against. */
  function Decode(s: string): seq<byte>
    decreases |s|
  {
    if |s| < 4 then []
    else
      var v0, v1, v2, v3 := SextetValue(s[0]), SextetValue(s[1]), SextetValue(s[2]), SextetValue(s[3]);
      var b0 := (v0 * 4 + v1 / 16) as byte;
      var b1 := ((v1 % 16) * 16 + v2 / 4) as byte;
      var b2 := ((v2 % 4) * 64 + v3) as byte;
      if s[2] == '=' then [b0]
      else if s[3] == '=' then [b0, b1]
      else [b0, b1, b2] + Decode(s[4..])
  }

  /** Every character of an encoding is in the alphabet or is padding, and
      padding only closes the text. */
  lemma {:induction false} EncodeAlphabet(bs: seq<byte>)
    ensures forall i :: 0 <= i < |Encode(bs)| ==> InAlphabet(Encode(bs)[i]) || Encode(bs)[i] == '='
  {
    if |bs| >= 3 {
      EncodeAlphabet(bs[3..]);
    }
  }

  /** The bit arithmetic of one group: regrouping 8-bit bytes into 6-bit
      sextets and back loses nothing. */
  lemma GroupArith(b0: int, b1: int, b2: int)
    requires 0 <= b0 < 256 && 0 <= b1 < 256 && 0 <= b2 < 256
    ensures (b0 / 4) * 4 + ((b0 % 4) * 16 + b1 / 16) / 16 == b0
    ensures (((b0 % 4) * 16 + b1 / 16) % 16) * 16 + ((b1 % 16) * 4 + b2 / 64) / 4 == b1
    ensures (((b1 % 16) * 4 + b2 / 64) % 4) * 64 + b2 % 64 == b2
  {
  }

  lemma DecodeGroup(b0: byte, b1: byte, b2: byte, rest: string)
    ensures Decode(EncodeGroup(b0, b1, b2) + rest) == [b0, b1, b2] + Decode(rest)
  {
    var s := EncodeGroup(b0, b1, b2) + rest;
    var x0, x1, x2 := b0 as int, b1 as int, b2 as int;
    var v0, v1, v2, v3 := x0 / 4, (x0 % 4) * 16 + x1 / 16, (x1 % 16) * 4 + x2 / 64, x2 % 64;
    SextetRoundTrip(v0);
    SextetRoundTrip(v1);
    SextetRoundTrip(v2);
    SextetRoundTrip(v3);
    GroupArith(x0, x1, x2);
    assert s[0] == Sextet(v0) && s[1] == Sextet(v1) && s[2] == Sextet(v2) && s[3] == Sextet(v3);
    assert s[4..] == rest;
  }

  lemma DecodeOne(b0: byte)
    ensures Decode(Encode([b0])) == [b0]
  {
    var x0 := b0 as int;
    SextetRoundTrip(x0 / 4);
    SextetRoundTrip((x0 % 4) * 16);
    GroupArith(x0, 0, 0);
  }

  lemma DecodeTwo(b0: byte, b1: byte)
    ensures Decode(Encode([b0, b1])) == [b0, b1]
  {
    var x0, x1 := b0 as int, b1 as int;
    SextetRoundTrip(x0 / 4);
    SextetRoundTrip((x0 % 4) * 16 + x1 / 16);
    SextetRoundTrip((x1 % 16) * 4);
    GroupArith(x0, x1, 0);
  }

  /** Decoding the encoding gives the bytes back. */
  lemma {:induction false} DecodeEncode(bs: seq<byte>)
    ensures Decode(Encode(bs)) == bs
  {
    if |bs| == 1 {
      assert bs == [bs[0]];
      DecodeOne(bs[0]);
    } else if |bs| == 2 {
      assert bs == [bs[0], bs[1]];
      DecodeTwo(bs[0], bs[1]);
    } else if |bs| >= 3 {
      DecodeEncodeStep(bs);
      DecodeEncode(bs[3..]);
      assert bs == bs[..3] + bs[3..];
    }
  }

  /** One full group comes back in front of the decoding of the rest. */
  lemma DecodeEncodeStep(bs: seq<byte>)
    requires |bs| >= 3
    ensures Decode(Encode(bs)) == bs[..3] + Decode(Encode(bs[3..]))
  {
    var rest := Encode(bs[3..]);
    EncodeStep(bs);
    DecodeGroup(bs[0], bs[1], bs[2], rest);
    FirstThree(bs);
  }

  lemma FirstThree(bs: seq<byte>)
    requires |bs| >= 3
    ensures bs[..3] == [bs[0], bs[1], bs[2]]
  {
  }

  lemma EncodeStep(bs: seq<byte>)
    requires |bs| >= 3
    ensures Encode(bs) == EncodeGroup(bs[0], bs[1], bs[2]) + Encode(bs[3..])
  {
  }

  /** Two byte strings with the same encoding are equal. */
  lemma EncodeInjective(a: seq<byte>, b: seq<byte>)
    requires Encode(a) == Encode(b)
    ensures a == b
  {
    DecodeEncode(a);
    DecodeEncode(b);
  }
}
