/** PHP's `base64_encode`, the encoding of section 4 of RFC 4648 with `=`
    padding, over PHP strings seen as byte strings: a character stands for
    the byte `c as int % 256`. `Decode` is the matching decoder, given so
    that the encoding can be stated to lose nothing. */
module Base64 {

  import opened Wrappers

  const Pad: char := '='

  /** The character of the base 64 alphabet for the 6-bit value `v`. */
  function Digit(v: int): (c: char)
    requires 0 <= v < 64
    ensures c != Pad
  {
    if v < 26 then ('A' as int + v) as char
    else if v < 52 then ('a' as int + v - 26) as char
    else if v < 62 then ('0' as int + v - 52) as char
    else if v == 62 then '+'
    else '/'
  }

  /** The 6-bit value of an alphabet character, `None` for anything else. */
  function DigitValue(c: char): (r: Option<int>)
    ensures r.Some? ==> 0 <= r.value < 64
  {
    if 'A' <= c <= 'Z' then Some(c as int - 'A' as int)
    else if 'a' <= c <= 'z' then Some(c as int - 'a' as int + 26)
    else if '0' <= c <= '9' then Some(c as int - '0' as int + 52)
    else if c == '+' then Some(62)
    else if c == '/' then Some(63)
    else None
  }

  /** The byte a PHP string character stands for. */
  function Byte(c: char): (b: int)
    ensures 0 <= b < 256
  {
    c as int % 256
  }

  predicate IsByteString(s: string) {
    forall i | 0 <= i < |s| :: s[i] as int < 256
  }

  /** Three bytes as four characters (the full group of RFC 4648, section 4). */
  function EncodeGroup(b0: int, b1: int, b2: int): (r: string)
    requires 0 <= b0 < 256 && 0 <= b1 < 256 && 0 <= b2 < 256
    ensures |r| == 4
  {
    [Digit(b0 / 4), Digit(b0 % 4 * 16 + b1 / 16), Digit(b1 % 16 * 4 + b2 / 64), Digit(b2 % 64)]
  }

  /** The base 64 encoding of `s`; a final group of one or two bytes is
      padded with `=` to four characters. */
  function Encode(s: string): (r: string)
    ensures |r| == (|s| + 2) / 3 * 4
    decreases |s|
  {
    if |s| == 0 then ""
    else if |s| == 1 then
      [Digit(Byte(s[0]) / 4), Digit(Byte(s[0]) % 4 * 16), Pad, Pad]
    else if |s| == 2 then
      [Digit(Byte(s[0]) / 4), Digit(Byte(s[0]) % 4 * 16 + Byte(s[1]) / 16), Digit(Byte(s[1]) % 16 * 4), Pad]
    else
      EncodeGroup(Byte(s[0]), Byte(s[1]), Byte(s[2])) + Encode(s[3..])
  }

  /** Four alphabet characters as three bytes. */
  function DecodeGroup(q: string): (r: Option<string>)
    requires |q| == 4
    ensures r.Some? ==> |r.value| == 3
  {
    match (DigitValue(q[0]), DigitValue(q[1]), DigitValue(q[2]), DigitValue(q[3]))
    case (Some(v0), Some(v1), Some(v2), Some(v3)) =>
      Some([(v0 * 4 + v1 / 16) as char, (v1 % 16 * 16 + v2 / 4) as char, (v2 % 4 * 64 + v3) as char])
    case _ => None
  }

  /** The last group of four characters, which may end in one or two `=`. */
  function DecodeLast(q: string): (r: Option<string>)
    requires |q| == 4
  {
    if q[2] == Pad && q[3] == Pad then
      match (DigitValue(q[0]), DigitValue(q[1]))
      case (Some(v0), Some(v1)) => Some([(v0 * 4 + v1 / 16) as char])
      case _ => None
    else if q[3] == Pad then
      match (DigitValue(q[0]), DigitValue(q[1]), DigitValue(q[2]))
      case (Some(v0), Some(v1), Some(v2)) => Some([(v0 * 4 + v1 / 16) as char, (v1 % 16 * 16 + v2 / 4) as char])
      case _ => None
    else DecodeGroup(q)
  }

  /** The bytes that the encoding `e` stands for, `None` when `e` is not a
      padded base 64 text. */
  function Decode(e: string): (r: Option<string>)
    decreases |e|
  {
    if |e| == 0 then Some("")
    else if |e| < 4 then None
    else if |e| == 4 then DecodeLast(e)
    else
      match (DecodeGroup(e[..4]), Decode(e[4..]))
      case (Some(group), Some(rest)) => Some(group + rest)
      case _ => None
  }

  lemma DigitRoundTrip(v: int)
    requires 0 <= v < 64
    ensures DigitValue(Digit(v)) == Some(v)
  {
  }

  /** A full group decodes to the three bytes it was made from. */
  lemma GroupRoundTrip(b0: int, b1: int, b2: int)
    requires 0 <= b0 < 256 && 0 <= b1 < 256 && 0 <= b2 < 256
    ensures DecodeGroup(EncodeGroup(b0, b1, b2)) == Some([b0 as char, b1 as char, b2 as char])
  {
    var v0, v1, v2, v3 := b0 / 4, b0 % 4 * 16 + b1 / 16, b1 % 16 * 4 + b2 / 64, b2 % 64;
    DigitRoundTrip(v0);
    DigitRoundTrip(v1);
    DigitRoundTrip(v2);
    DigitRoundTrip(v3);
    assert v1 / 16 == b0 % 4 && v1 % 16 == b1 / 16;
    assert v2 / 4 == b1 % 16 && v2 % 4 == b2 / 64;
  }

  /** A character that is a byte is the character of its byte. */
  lemma ByteChar(c: char)
    requires c as int < 256
    ensures Byte(c) as char == c
  {
  }

  /** A text of four characters is decoded as a last group. */
  lemma DecodeFour(e: string)
    requires |e| == 4
    ensures Decode(e) == DecodeLast(e)
  {
  }

  /** A last group holding one byte decodes to that byte. */
  lemma OneByteGroup(b0: int)
    requires 0 <= b0 < 256
    ensures DecodeLast([Digit(b0 / 4), Digit(b0 % 4 * 16), Pad, Pad]) == Some([b0 as char])
  {
    DigitRoundTrip(b0 / 4);
    DigitRoundTrip(b0 % 4 * 16);
  }

  /** A last group holding two bytes decodes to those bytes. */
  lemma TwoBytesGroup(b0: int, b1: int)
    requires 0 <= b0 < 256 && 0 <= b1 < 256
    ensures DecodeLast([Digit(b0 / 4), Digit(b0 % 4 * 16 + b1 / 16), Digit(b1 % 16 * 4), Pad])
         == Some([b0 as char, b1 as char])
  {
    var v1 := b0 % 4 * 16 + b1 / 16;
    DigitRoundTrip(b0 / 4);
    DigitRoundTrip(v1);
    DigitRoundTrip(b1 % 16 * 4);
    assert v1 / 16 == b0 % 4 && v1 % 16 == b1 / 16;
  }

  /** One byte encodes to two digits and `==`, and decodes back. */
  lemma OneByteRoundTrip(s: string)
    requires |s| == 1 && IsByteString(s)
    ensures Decode(Encode(s)) == Some(s)
  {
    var b0 := Byte(s[0]);
    var e := [Digit(b0 / 4), Digit(b0 % 4 * 16), Pad, Pad];
    assert Encode(s) == e;
    DecodeFour(e);
    OneByteGroup(b0);
    ByteChar(s[0]);
    assert [b0 as char] == [s[0]] == s;
  }

  /** Two bytes encode to three digits and `=`, and decode back. */
  lemma TwoBytesRoundTrip(s: string)
    requires |s| == 2 && IsByteString(s)
    ensures Decode(Encode(s)) == Some(s)
  {
    var b0, b1 := Byte(s[0]), Byte(s[1]);
    var e := [Digit(b0 / 4), Digit(b0 % 4 * 16 + b1 / 16), Digit(b1 % 16 * 4), Pad];
    assert Encode(s) == e;
    DecodeFour(e);
    TwoBytesGroup(b0, b1);
    ByteChar(s[0]);
    ByteChar(s[1]);
    assert [b0 as char, b1 as char] == [s[0], s[1]] == s;
  }

  /** Decoding undoes `base64_encode` on every byte string. */
  lemma {:induction false} RoundTrip(s: string)
    requires IsByteString(s)
    ensures Decode(Encode(s)) == Some(s)
    decreases |s|
  {
    if |s| == 1 {
      OneByteRoundTrip(s);
    } else if |s| == 2 {
      TwoBytesRoundTrip(s);
    } else if |s| >= 3 {
      var b0, b1, b2 := Byte(s[0]), Byte(s[1]), Byte(s[2]);
      var g := EncodeGroup(b0, b1, b2);
      var e := Encode(s);
      assert e == g + Encode(s[3..]);
      GroupRoundTrip(b0, b1, b2);
      ByteChar(s[0]);
      ByteChar(s[1]);
      ByteChar(s[2]);
      assert [b0 as char, b1 as char, b2 as char] == [s[0], s[1], s[2]] == s[..3];
      if |s| == 3 {
        assert e == g;
        DecodeFour(e);
        assert DecodeLast(e) == DecodeGroup(g);
        assert s[..3] == s;
      } else {
        assert e[..4] == g && e[4..] == Encode(s[3..]);
        RoundTrip(s[3..]);
        assert s[..3] + s[3..] == s;
      }
    }
  }
}
