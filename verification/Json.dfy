/**
  JSON string literals as Go's encoding/json writes them (section 7 of RFC 8259, with HTML escaping
  on, and U+2028 and U+2029 escaped).

  Encoders take what follows the value: QuoteThen(s, rest) is the literal for s followed by rest.
  A document is then a right-nested term, and reading it back peels it from the left.
 */
module Json {
  import opened Wrappers
  import opened ByteStrings

  function Hex(v: int): (c: char)
    requires 0 <= v < 16
    ensures HexValue(c) == v && 0x30 <= c as int < 0x67 && (c as int < 0x3A || c as int > 0x60)
  {
    if v < 10 then (v + 48) as char else (v - 10 + 97) as char
  }

  function HexValue(c: char): (v: int)
    ensures -1 <= v < 16
  {
    var i := c as int;
    if 48 <= i < 58 then i - 48
    else if 97 <= i < 103 then i - 97 + 10
    else if 65 <= i < 71 then i - 65 + 10
    else -1
  }

  /** ASCII that stands for itself inside a literal. */
  predicate Plain(c: char) {
    0x20 <= c as int < 0x80 && c != '"' && c != '\\' && c != '<' && c != '>' && c != '&'
  }

  /** One ASCII character inside a literal. */
  function EscapeAscii(c: char): string
    requires c as int < 0x80
  {
    if Plain(c) then [c]
    else if c == '"' then "\\\""
    else if c == '\\' then "\\\\"
    else if c == '\n' then "\\n"
    else if c == '\r' then "\\r"
    else if c == '\t' then "\\t"
    else if c as int == 8 then "\\b"
    else if c as int == 12 then "\\f"
    else ['\\', 'u', '0', '0', Hex(c as int / 16), Hex(c as int % 16)]
  }

  /** U+2028 (last byte 0xA8) or U+2029 (last byte 0xA9) at the front of s. */
  predicate LineSeparator(s: string) {
    |s| >= 3 && s[0] as int == 0xE2 && s[1] as int == 0x80 && (s[2] as int == 0xA8 || s[2] as int == 0xA9)
  }

  /** What the first rune of s becomes inside a literal. A bad byte becomes U+FFFD. */
  function EscapeRune(s: string): string
    requires s != ""
  {
    if s[0] as int < 0x80 then EscapeAscii(s[0])
    else if RuneSize(s) == 0 then "\\ufffd"
    else if LineSeparator(s) then ['\\', 'u', '2', '0', '2', Hex(s[2] as int - 0xA0)]
    else s[..RuneSize(s)]
  }

  /** The body of the literal for s, its closing quote, and rest. */
  function EscapeThen(s: string, rest: string): string
    decreases |s|
  {
    if s == "" then "\"" + rest
    else
      var width := if RuneSize(s) == 0 then 1 else RuneSize(s);
      EscapeRune(s) + EscapeThen(s[width..], rest)
  }

  function QuoteThen(s: string, rest: string): string {
    "\"" + EscapeThen(s, rest)
  }

  /** What an escape sequence at the front of s stands for, and how long it is (0 when malformed). */
  function ReadEscape(s: string): (r: (string, nat))
    requires s != "" && s[0] == '\\'
    ensures r.1 <= |s|
  {
    if |s| < 2 then ("", 0)
    else match s[1]
      case '"' => ("\"", 2)
      case '\\' => ("\\", 2)
      case '/' => ("/", 2)
      case 'n' => ("\n", 2)
      case 'r' => ("\r", 2)
      case 't' => ("\t", 2)
      case 'b' => ([Byte(8)], 2)
      case 'f' => ([Byte(12)], 2)
      case 'u' =>
        if |s| < 6 || HexValue(s[2]) < 0 || HexValue(s[3]) < 0 || HexValue(s[4]) < 0 || HexValue(s[5]) < 0 then ("", 0)
        else (EncodeRune(HexValue(s[2]) * 4096 + HexValue(s[3]) * 256 + HexValue(s[4]) * 16 + HexValue(s[5])), 6)
      case _ => ("", 0)
  }

  /** Reads a literal's body up to its closing quote: the text and what follows. */
  function Unescape(s: string): Option<(string, string)>
    decreases |s|
  {
    if s == "" || s[0] as int < 0x20 then None
    else if s[0] == '"' then Some(("", s[1..]))
    else
      var (text, n) := if s[0] == '\\' then ReadEscape(s) else ([s[0]], 1);
      if n == 0 then None
      else match Unescape(s[n..])
        case None => None
        case Some((more, rest)) => Some((text + more, rest))
  }

  function Unquote(s: string): Option<(string, string)> {
    if s == "" || s[0] != '"' then None else Unescape(s[1..])
  }

  // ----- round trip -----

  lemma UnescapeAscii(c: char, more: string, text: string, rest: string)
    requires c as int < 0x80 && Unescape(more) == Some((text, rest))
    ensures Unescape(EscapeAscii(c) + more) == Some(([c] + text, rest))
  {
    var e := EscapeAscii(c);
    var s := e + more;
    assert s[|e|..] == more;
    if !Plain(c) {
      assert s[0] == '\\' && s[1] == e[1];
      if |e| == 6 {
        assert s[2] == e[2] && s[3] == e[3] && s[4] == e[4] && s[5] == e[5];
        assert HexValue('0') == 0;
        assert ReadEscape(s) == ([c], 6);
      } else {
        assert ReadEscape(s) == ([c], 2);
      }
    }
  }

  lemma {:induction false} UnescapeHighBytes(b: string, more: string, text: string, rest: string)
    requires forall i :: 0 <= i < |b| ==> b[i] as int >= 0x80
    requires Unescape(more) == Some((text, rest))
    ensures Unescape(b + more) == Some((b + text, rest))
  {
    if b == "" {
      assert b + more == more && b + text == text;
    } else {
      UnescapeHighBytes(b[1..], more, text, rest);
      assert (b + more)[1..] == b[1..] + more;
      assert b + text == [b[0]] + (b[1..] + text);
    }
  }

  lemma UnescapeLineSeparator(s: string, more: string, text: string, rest: string)
    requires LineSeparator(s) && Unescape(more) == Some((text, rest))
    ensures Unescape(['\\', 'u', '2', '0', '2', Hex(s[2] as int - 0xA0)] + more) == Some((s[..3] + text, rest))
  {
    var e := ['\\', 'u', '2', '0', '2', Hex(s[2] as int - 0xA0)];
    var t := e + more;
    assert t[6..] == more;
    assert HexValue('2') == 2 && HexValue('0') == 0;
    var v := 0x2020 + (s[2] as int - 0xA0);
    assert ReadEscape(t) == (EncodeRune(v), 6);
    assert EncodeRune(v) == s[..3];
  }

  lemma UnescapeRune(s: string, more: string, text: string, rest: string)
    requires RuneSize(s) > 0 && Unescape(more) == Some((text, rest))
    ensures Unescape(EscapeRune(s) + more) == Some((s[..RuneSize(s)] + text, rest))
  {
    if s[0] as int < 0x80 {
      UnescapeAscii(s[0], more, text, rest);
      assert s[..1] == [s[0]];
    } else if LineSeparator(s) {
      UnescapeLineSeparator(s, more, text, rest);
    } else {
      UnescapeHighBytes(s[..RuneSize(s)], more, text, rest);
    }
  }

  lemma EscapeStep(s: string, rest: string)
    requires RuneSize(s) > 0
    ensures EscapeThen(s, rest) == EscapeRune(s) + EscapeThen(s[RuneSize(s)..], rest)
  {
  }

  lemma {:induction false} UnescapeEscape(s: string, rest: string)
    requires ValidUtf8(s)
    ensures Unescape(EscapeThen(s, rest)) == Some((s, rest))
    decreases |s|
  {
    if s == "" {
      assert ("\"" + rest)[1..] == rest;
    } else {
      UnescapeEscapeStep(s, rest);
    }
  }

  lemma {:induction false} UnescapeEscapeStep(s: string, rest: string)
    requires ValidUtf8(s) && s != ""
    ensures Unescape(EscapeThen(s, rest)) == Some((s, rest))
    decreases |s|, 0
  {
    hide Unescape, EscapeRune, EscapeThen, RuneSize;
    var tail := s[RuneSize(s)..];
    UnescapeEscape(tail, rest);
    EscapeStep(s, rest);
    UnescapeRune(s, EscapeThen(tail, rest), tail, rest);
    assert s == s[..RuneSize(s)] + tail;
  }

  /** Reading back a literal gives the text and stops exactly at its closing quote. */
  lemma UnquoteQuote(s: string, rest: string)
    requires ValidUtf8(s)
    ensures Unquote(QuoteThen(s, rest)) == Some((s, rest))
  {
    UnescapeEscape(s, rest);
  }

  /** No two texts share a literal, whatever follows. */
  lemma QuoteInjective(s: string, x: string, t: string, y: string)
    requires ValidUtf8(s) && ValidUtf8(t) && QuoteThen(s, x) == QuoteThen(t, y)
    ensures s == t && x == y
  {
    UnquoteQuote(s, x);
    UnquoteQuote(t, y);
  }

  /** Validity is needed: two different bad bytes both become U+FFFD. */
  lemma InvalidUtf8Collides()
    ensures !ValidUtf8([Byte(0x80)]) && !ValidUtf8([Byte(0x81)])
    ensures QuoteThen([Byte(0x80)], "") == QuoteThen([Byte(0x81)], "")
  {
    var s, t := [Byte(0x80)], [Byte(0x81)];
    assert s[1..] == "" && t[1..] == "";
    assert EscapeThen(s, "") == "\\ufffd" + EscapeThen("", "");
  }

  /** Plain text is written as it is, so base64 and hex are their own literals. */
  lemma {:induction false} PlainIsVerbatim(s: string, rest: string)
    requires forall i :: 0 <= i < |s| ==> Plain(s[i])
    ensures EscapeThen(s, rest) == s + "\"" + rest
  {
    if s != "" {
      PlainIsVerbatim(s[1..], rest);
      assert EscapeRune(s) == [s[0]];
      assert s + "\"" + rest == [s[0]] + (s[1..] + "\"" + rest);
    }
  }
}
