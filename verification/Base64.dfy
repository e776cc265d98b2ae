/** Standard base64 with padding (section 4 of RFC 4648), the form encoding/json gives a []byte. */
module Base64 {
  import opened Wrappers
  import opened ByteStrings

  type Octet = c: char | c as int < 0x100 witness 'A'
  type Sextet = v: int | 0 <= v < 64

  // ----- three octets as four sextets -----

  function Bits1(a: Octet): Sextet { a as int / 4 }
  function Bits2(a: Octet, b: Octet): Sextet { a as int % 4 * 16 + b as int / 16 }
  function Bits3(b: Octet, c: Octet): Sextet { b as int % 16 * 4 + c as int / 64 }
  function Bits4(c: Octet): Sextet { c as int % 64 }

  function Octet1(p: Sextet, q: Sextet): Octet { Byte(p * 4 + q / 16) }
  function Octet2(q: Sextet, r: Sextet): Octet { Byte(q % 16 * 16 + r / 4) }
  function Octet3(r: Sextet, s: Sextet): Octet { Byte(r % 4 * 64 + s) }

  lemma OctetsFromBits(a: Octet, b: Octet, c: Octet)
    ensures Octet1(Bits1(a), Bits2(a, b)) == a
    ensures Octet2(Bits2(a, b), Bits3(b, c)) == b
    ensures Octet3(Bits3(b, c), Bits4(c)) == c
  {
    assert Bits2(a, b) / 16 == a as int % 4 && Bits2(a, b) % 16 == b as int / 16;
    assert Bits3(b, c) / 4 == b as int % 16 && Bits3(b, c) % 4 == c as int / 64;
  }

  // ----- digits -----

  function Digit(v: Sextet): (c: char)
    ensures DigitValue(c) == v && c != '='
    ensures 0x2B <= c as int < 0x7B && c !in {'<', '>', '\\'}
  {
    if v < 26 then (v + 65) as char
    else if v < 52 then (v - 26 + 97) as char
    else if v < 62 then (v - 52 + 48) as char
    else if v == 62 then '+'
    else '/'
  }

  /** The value of a base64 digit, or -1. */
  function DigitValue(c: char): (v: int)
    ensures -1 <= v < 64
  {
    var i := c as int;
    if 65 <= i < 91 then i - 65
    else if 97 <= i < 123 then i - 97 + 26
    else if 48 <= i < 58 then i - 48 + 52
    else if c == '+' then 62
    else if c == '/' then 63
    else -1
  }

  const ZERO: Octet := '\0'

  function Encode(s: string): string
    requires IsBytes(s)
  {
    if s == "" then ""
    else if |s| == 1 then [Digit(Bits1(s[0])), Digit(Bits2(s[0], ZERO)), '=', '=']
    else if |s| == 2 then [Digit(Bits1(s[0])), Digit(Bits2(s[0], s[1])), Digit(Bits3(s[1], ZERO)), '=']
    else [Digit(Bits1(s[0])), Digit(Bits2(s[0], s[1])), Digit(Bits3(s[1], s[2])), Digit(Bits4(s[2]))] + Encode(s[3..])
  }

  function Decode(t: string): Option<string> {
    if t == "" then Some("")
    else if |t| < 4 || DigitValue(t[0]) < 0 || DigitValue(t[1]) < 0 then None
    else
      var p, q := DigitValue(t[0]), DigitValue(t[1]);
      if |t| == 4 && t[2] == '=' && t[3] == '=' then Some([Octet1(p, q)])
      else if DigitValue(t[2]) < 0 then None
      else
        var r := DigitValue(t[2]);
        if |t| == 4 && t[3] == '=' then Some([Octet1(p, q), Octet2(q, r)])
        else if DigitValue(t[3]) < 0 then None
        else
          match Decode(t[4..])
          case None => None
          case Some(rest) => Some([Octet1(p, q), Octet2(q, r), Octet3(r, DigitValue(t[3]))] + rest)
  }

  lemma DecodeGroup(a: Octet, b: Octet, c: Octet, t: string, rest: string)
    requires Decode(t) == Some(rest)
    ensures Decode([Digit(Bits1(a)), Digit(Bits2(a, b)), Digit(Bits3(b, c)), Digit(Bits4(c))] + t)
         == Some([a, b, c] + rest)
  {
    hide Bits1, Bits2, Bits3, Bits4, Octet1, Octet2, Octet3, Digit, DigitValue;
    var u := [Digit(Bits1(a)), Digit(Bits2(a, b)), Digit(Bits3(b, c)), Digit(Bits4(c))] + t;
    assert u[4..] == t;
    OctetsFromBits(a, b, c);
  }

  lemma {:induction false} DecodeEncode(s: string)
    requires IsBytes(s)
    ensures Decode(Encode(s)) == Some(s)
    decreases |s|
  {
    hide Bits1, Bits2, Bits3, Bits4, Octet1, Octet2, Octet3, Digit, DigitValue;
    if |s| >= 3 {
      DecodeEncode(s[3..]);
      DecodeGroup(s[0], s[1], s[2], Encode(s[3..]), s[3..]);
      assert s == [s[0], s[1], s[2]] + s[3..];
    } else if |s| == 2 {
      OctetsFromBits(s[0], s[1], ZERO);
      assert s == [s[0], s[1]];
    } else if |s| == 1 {
      OctetsFromBits(s[0], ZERO, ZERO);
      assert s == [s[0]];
    }
  }

  /** Base64 text needs no escaping inside a JSON literal. */
  lemma {:induction false} EncodeIsPlain(s: string)
    requires IsBytes(s)
    ensures forall i :: 0 <= i < |Encode(s)| ==> 0x2B <= Encode(s)[i] as int < 0x7B && Encode(s)[i] !in {'<', '>', '\\'}
    decreases |s|
  {
    hide Bits1, Bits2, Bits3, Bits4, Digit;
    if |s| >= 3 {
      EncodeIsPlain(s[3..]);
    }
  }
}
