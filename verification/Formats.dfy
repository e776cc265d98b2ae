/**
  The formats against their published descriptions: base64 (section 4 of RFC 4648), JSON literals
  (section 7 of RFC 8259) as encoding/json writes them, protobuf fields, and the texts of the
  service's own records and fingerprints.
 */
module Formats {
  import opened Wrappers
  import opened ByteStrings
  import opened Base64
  import opened Json
  import opened TokenPairWire
  import opened RequestFingerprint
  import opened IdempotencyRecord

  // ----- base64 -----

  /** The alphabet: A to Z, a to z, 0 to 9, + and /. */
  lemma Alphabet(v: Sextet)
    ensures Digit(0) == 'A' && Digit(25) == 'Z' && Digit(26) == 'a' && Digit(51) == 'z'
    ensures Digit(52) == '0' && Digit(61) == '9' && Digit(62) == '+' && Digit(63) == '/'
    ensures v < 61 && v !in {25, 51} ==> Digit(v + 1) as int == Digit(v) as int + 1
  {
  }

  /** Four sextets are the 24 bits of three octets, first bits first. */
  lemma GroupIs24Bits(a: Octet, b: Octet, c: Octet)
    ensures ((Bits1(a) * 64 + Bits2(a, b)) * 64 + Bits3(b, c)) * 64 + Bits4(c)
         == (a as int * 256 + b as int) * 256 + c as int
  {
  }

  /** Test vectors of section 10 of RFC 4648: the last group is padded. */
  lemma Base64Vectors()
    ensures Base64.Encode("f") == "Zg==" && Base64.Encode("fo") == "Zm8=" && Base64.Encode("foo") == "Zm9v"
    ensures Base64.Encode("foobar") == "Zm9vYmFy"
  {
    assert "foobar"[3..] == "bar" && "bar"[3..] == "" && "foo"[3..] == "";
  }

  // ----- JSON literals -----

  /** How encoding/json writes an ASCII character inside a literal. */
  lemma EscapeTable(c: char)
    requires c as int < 0x80
    ensures c == '"' ==> EscapeAscii(c) == "\\\""
    ensures c == '\\' ==> EscapeAscii(c) == "\\\\"
    ensures c == '\n' ==> EscapeAscii(c) == "\\n"
    ensures c == '\r' ==> EscapeAscii(c) == "\\r"
    ensures c == '\t' ==> EscapeAscii(c) == "\\t"
    ensures c as int == 8 ==> EscapeAscii(c) == "\\b"
    ensures c as int == 12 ==> EscapeAscii(c) == "\\f"
    ensures c == '<' ==> EscapeAscii(c) == "\\u003c"
    ensures c == '>' ==> EscapeAscii(c) == "\\u003e"
    ensures c == '&' ==> EscapeAscii(c) == "\\u0026"
    ensures c as int == 0 ==> EscapeAscii(c) == "\\u0000"
    ensures c as int == 31 ==> EscapeAscii(c) == "\\u001f"
    ensures c as int >= 32 && c !in {'"', '\\', '<', '>', '&'} ==> EscapeAscii(c) == [c]
  {
  }

  lemma Cat(a: string, b: string, c: string)
    ensures (a + b) + c == a + (b + c)
  {
  }

  ghost predicate AllPlain(s: string) {
    forall i :: 0 <= i < |s| ==> Plain(s[i])
  }

  /** A literal without escapes, and what follows it. */
  function Quoted(s: string, rest: string): string {
    "\"" + (s + ("\"" + rest))
  }

  lemma PlainQuote(s: string, rest: string)
    requires AllPlain(s)
    ensures QuoteThen(s, rest) == Quoted(s, rest)
  {
    PlainIsVerbatim(s, rest);
    Cat(s, "\"", rest);
  }

  // ----- protobuf -----

  /** A length-delimited field whose length fits one byte. */
  lemma StringField(tag: nat, s: string, rest: string)
    requires tag < 128 && 0 < |s| < 128
    ensures StringFieldThen(tag, s, rest) == [Byte(tag), Byte(|s|)] + s + rest
  {
    Cat([Byte(tag)], [Byte(|s|)], s + rest);
    Cat([Byte(tag), Byte(|s|)], s, rest);
  }

  /** A varint takes one byte below 128 and two below 16384, least significant group first. */
  lemma SmallVarint(n: nat, rest: string)
    requires n < 0x4000
    ensures n < 128 ==> VarintThen(n, rest) == [Byte(n)] + rest
    ensures 128 <= n ==> VarintThen(n, rest) == [Byte(n % 128 + 128), Byte(n / 128)] + rest
  {
    if n >= 128 {
      assert VarintThen(n / 128, rest) == [Byte(n / 128)] + rest;
      Cat([Byte(n % 128 + 128)], [Byte(n / 128)], rest);
    }
  }

  /** A negative number takes ten, as its two's complement in 64 bits. */
  lemma MinusOneField(tag: nat, rest: string)
    requires tag < 128
    ensures IntFieldThen(tag, -1, rest) == [Byte(tag)] + (seq(9, _ => Byte(0xFF)) + ([Byte(1)] + rest))
  {
    Ones(9, rest);
  }

  lemma {:induction false} Ones(k: nat, rest: string)
    requires k <= 9
    ensures Pow128(k) > 0 && VarintThen(2 * Pow128(k) - 1, rest) == seq(k, _ => Byte(0xFF)) + ([Byte(1)] + rest)
    ensures k == 9 ==> 2 * Pow128(k) == TWO_64
  {
    if k > 0 {
      Ones(k - 1, rest);
      var n := 2 * Pow128(k) - 1;
      assert n == 128 * (2 * Pow128(k - 1) - 1) + 127;
      assert n % 128 == 127 && n / 128 == 2 * Pow128(k - 1) - 1;
      assert seq(k, _ => Byte(0xFF)) == [Byte(0xFF)] + seq(k - 1, _ => Byte(0xFF));
      Cat([Byte(0xFF)], seq(k - 1, _ => Byte(0xFF)), [Byte(1)] + rest);
    }
    if k == 9 { NinePowers(); }
  }

  function Pow128(k: nat): nat {
    if k == 0 then 1 else 128 * Pow128(k - 1)
  }

  lemma NinePowers()
    ensures 2 * Pow128(9) == TWO_64
  {
    assert Pow128(3) == 128 * 128 * 128;
    assert Pow128(6) == 128 * 128 * 128 * Pow128(3);
    assert Pow128(9) == 128 * 128 * 128 * Pow128(6);
  }

  /** A whole message: access token, refresh token and their lifetimes are fields 1 to 4, in this order. */
  lemma MessageText(access: string, refresh: string, x: int, y: int)
    requires ValidUtf8(access) && ValidUtf8(refresh) && 0 < |access| < 128 && 0 < |refresh| < 128
    requires 0 < x < 128 && 0 < y < 128
    ensures Marshal(TokenPair(access, refresh, x, y))
         == Some([Byte(0x0A), Byte(|access|)] + access
                 + ([Byte(0x12), Byte(|refresh|)] + refresh + [Byte(0x18), Byte(x), Byte(0x20), Byte(y)]))
  {
    var lifetimes := IntFieldThen(0x18, x, IntFieldThen(0x20, y, ""));
    assert lifetimes == [Byte(0x18), Byte(x), Byte(0x20), Byte(y)];
    StringField(0x12, refresh, lifetimes);
    StringField(0x0A, access, StringFieldThen(0x12, refresh, lifetimes));
  }

  // ----- records and fingerprints -----

  lemma PendingText()
    ensures PENDING_RECORD == "IDR1{\"state\":\"pending\"}"
  {
  }

  lemma FingerprintText(fingerprint: string)
    requires fingerprint != "" && AllPlain(fingerprint)
    ensures FingerprintThen(fingerprint) == ",\"fingerprint\":" + Quoted(fingerprint, "}")
  {
    hide QuoteThen, Quoted, AllPlain;
    PlainQuote(fingerprint, "}");
  }

  lemma ResponseText(response: string, fingerprint: string)
    requires IsBytes(response) && response != ""
    ensures ResponseThen(response, fingerprint)
         == ",\"response\":" + Quoted(Base64.Encode(response), FingerprintThen(fingerprint))
  {
    EncodeIsPlain(response);
    Base64IsPlain(Base64.Encode(response));
    hide Base64.Encode, QuoteThen, Quoted, FingerprintThen, AllPlain;
    PlainQuote(Base64.Encode(response), FingerprintThen(fingerprint));
  }

  lemma CompletedIsPlain()
    ensures AllPlain("completed")
  {
  }

  /** The envelope of a completed record with a response and a plain fingerprint. */
  lemma CompletedText(response: string, fingerprint: string)
    requires IsBytes(response) && response != "" && fingerprint != "" && AllPlain(fingerprint)
    ensures EncodeCompleted(response, fingerprint)
         == "IDR1" + ("{\"state\":" + Quoted("completed",
              ",\"response\":" + Quoted(Base64.Encode(response), ",\"fingerprint\":" + Quoted(fingerprint, "}"))))
  {
    hide Base64.Encode, QuoteThen, Quoted, ResponseThen, FingerprintThen, AllPlain;
    FingerprintText(fingerprint);
    ResponseText(response, fingerprint);
    CompletedIsPlain();
    PlainQuote("completed", ResponseThen(response, fingerprint));
  }

  lemma Base64IsPlain(b64: string)
    requires forall i :: 0 <= i < |b64| ==> 0x2B <= b64[i] as int < 0x7B && b64[i] !in {'<', '>', '\\'}
    ensures AllPlain(b64)
  {
  }

  lemma HexExample()
    ensures HexDigest([Byte(0), Byte(0xAB), Byte(0xFF)]) == "00abff"
  {
  }

  /** What is hashed of an issue request with plain fields, no claims and two audiences: these are sorted. */
  lemma IssueText(sub: string, tenantId: string, a: string, b: string)
    requires AllPlain(sub) && AllPlain(tenantId) && AllPlain(a) && AllPlain(b) && Leq(a, b)
    ensures Canonical(IssueInput(sub, tenantId, NilClaims, [b, a]))
         == "{\"sub\":" + Quoted(sub, ",\"tenant_id\":" + Quoted(tenantId,
              ",\"claims\":" + ("null" + (",\"audiences\":" + ("[" + Quoted(a, "," + Quoted(b, "]" + "}")))))))
  {
    TwoSorted(a, b);
    hide Sorted, QuoteThen, Quoted, ElementsThen;
    var elements := TwoElements(a, b);
    var tail := ",\"claims\":" + ("null" + (",\"audiences\":" + ("[" + elements)));
    PlainQuote(tenantId, tail);
    PlainQuote(sub, ",\"tenant_id\":" + QuoteThen(tenantId, tail));
  }

  lemma TwoElements(a: string, b: string) returns (elements: string)
    requires AllPlain(a) && AllPlain(b)
    ensures elements == ElementsThen([a, b], "}") == Quoted(a, "," + Quoted(b, "]" + "}"))
  {
    hide QuoteThen, Quoted;
    elements := ElementsThen([a, b], "}");
    assert [a, b][1..] == [b];
    PlainQuote(b, "]" + "}");
    PlainQuote(a, "," + QuoteThen(b, "]" + "}"));
  }

  lemma TwoSorted(a: string, b: string)
    requires Leq(a, b)
    ensures Sorted([b, a]) == [a, b]
  {
    LeqTotal(a, b);
    assert [b, a][1..] == [a] && [a][1..] == [];
    assert Sorted([a]) == [a];
    assert Insert(b, [a]) == [a, b];
  }

  /** And of a refresh request with one claim. */
  lemma RefreshText(token: string, tenantId: string, name: string, value: string)
    requires AllPlain(token) && AllPlain(tenantId) && AllPlain(name) && AllPlain(value)
    ensures Canonical(RefreshInput(token, tenantId, MadeClaims(map[name := value])))
         == "{\"refresh_token\":" + Quoted(token, ",\"tenant_id\":" + Quoted(tenantId,
              ",\"claims\":" + ("{" + Quoted(name, ":" + Quoted(value, "}" + "}")))))
  {
    var m := map[name := value];
    OneElement(name, m);
    hide SortedElements, QuoteThen, Quoted;
    PlainQuote(value, "}" + "}");
    PlainQuote(name, ":" + QuoteThen(value, "}" + "}"));
    var tail := ",\"claims\":" + ("{" + MembersThen([name], m, "}"));
    PlainQuote(tenantId, tail);
    PlainQuote(token, ",\"tenant_id\":" + QuoteThen(tenantId, tail));
  }

  lemma OneElement(name: string, m: map<string, string>)
    requires m.Keys == {name}
    ensures SortedElements(m.Keys) == [name]
  {
    assert Least(m.Keys) == name;
    assert m.Keys - {name} == {};
  }
}
