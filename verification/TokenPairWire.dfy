/**
  The protobuf wire form of TokenPair: two strings (fields 1 and 2) and two int64 (fields 3 and 4),
  written in field order with zero values left out.
 */
module TokenPairWire {
  import opened Wrappers
  import opened ByteStrings

  datatype TokenPair = TokenPair(
    accessToken: string, refreshToken: string, accessExpiresIn: int, refreshExpiresIn: int)

  const EMPTY_PAIR := TokenPair("", "", 0, 0)

  const TWO_63: int := 0x8000_0000_0000_0000
  const TWO_64: int := 0x1_0000_0000_0000_0000

  /** What Go's types guarantee of any TokenPair: int64 fields, and lengths that fit an int. */
  predicate GoTyped(p: TokenPair) {
    && |p.accessToken| < TWO_63 && |p.refreshToken| < TWO_63
    && -TWO_63 <= p.accessExpiresIn < TWO_63
    && -TWO_63 <= p.refreshExpiresIn < TWO_63
  }

  type GoPair = p: TokenPair | GoTyped(p) witness EMPTY_PAIR

  // ----- varints -----

  /** The varint for n, followed by rest. */
  function VarintThen(n: nat, rest: string): string {
    if n < 128 then [Byte(n)] + rest else [Byte(n % 128 + 128)] + VarintThen(n / 128, rest)
  }

  /** One more than the largest value a varint of at most k bytes may hold; ten bytes hold 64 bits. */
  function Capacity(k: nat): nat {
    if k == 0 then 0 else if k == 1 then 2 else 128 * Capacity(k - 1)
  }

  lemma CapacityOfTen()
    ensures Capacity(10) == TWO_64
  {
    assert Capacity(2) == 256;
    assert Capacity(4) == 256 * 128 * 128;
    assert Capacity(6) == 256 * 128 * 128 * 128 * 128;
    assert Capacity(8) == 256 * 128 * 128 * 128 * 128 * 128 * 128;
  }

  /** Reads a varint of at most k bytes whose last possible byte carries one bit. */
  function ReadVarint(s: string, k: nat): (r: Option<(nat, string)>)
    requires k >= 1
    ensures r.Some? ==> |r.value.1| < |s|
  {
    if s == "" || s[0] as int >= 0x100 then None
    else
      var b := s[0] as int;
      if b < 128 then (if k == 1 && b > 1 then None else Some((b, s[1..])))
      else if k == 1 then None
      else match ReadVarint(s[1..], k - 1)
        case None => None
        case Some((v, rest)) => Some((b - 128 + 128 * v, rest))
  }

  lemma {:induction false} ReadVarintThen(n: nat, rest: string, k: nat)
    requires k >= 1 && n < Capacity(k)
    ensures ReadVarint(VarintThen(n, rest), k) == Some((n, rest))
  {
    var s := VarintThen(n, rest);
    if n < 128 {
      assert s[1..] == rest;
    } else {
      ReadVarintThen(n / 128, rest, k - 1);
      assert s[1..] == VarintThen(n / 128, rest);
    }
  }

  function Uint64(n: int): (u: nat)
    requires -TWO_63 <= n < TWO_63
    ensures u < TWO_64 && Int64(u) == n && (u == 0 <==> n == 0)
  {
    if n < 0 then n + TWO_64 else n
  }

  /** Two's complement reading of the low 64 bits. */
  function Int64(u: nat): int {
    var v := u % TWO_64;
    if v < TWO_63 then v else v - TWO_64
  }

  // ----- fields -----

  function StringFieldThen(tag: nat, s: string, rest: string): string {
    if s == "" then rest else VarintThen(tag, VarintThen(|s|, s + rest))
  }

  function IntFieldThen(tag: nat, n: int, rest: string): string
    requires -TWO_63 <= n < TWO_63
  {
    if n == 0 then rest else VarintThen(tag, VarintThen(Uint64(n), rest))
  }

  /** proto.Marshal: fails exactly when a string field is not valid UTF-8. */
  function Marshal(p: GoPair): (r: Option<string>)
    ensures r.Some? <==> ValidUtf8(p.accessToken) && ValidUtf8(p.refreshToken)
  {
    if ValidUtf8(p.accessToken) && ValidUtf8(p.refreshToken) then
      Some(StringFieldThen(0x0A, p.accessToken,
           StringFieldThen(0x12, p.refreshToken,
           IntFieldThen(0x18, p.accessExpiresIn,
           IntFieldThen(0x20, p.refreshExpiresIn, "")))))
    else None
  }

  datatype WireError = Truncated | BadUtf8 | UnknownField

  function ReadString(s: string): (r: Result<(string, string), WireError>)
    ensures r.Success? ==> |r.value.1| < |s|
  {
    match ReadVarint(s, 10)
    case None => Failure(Truncated)
    case Some((n, rest)) =>
      if n > |rest| then Failure(Truncated)
      else if !ValidUtf8(rest[..n]) then Failure(BadUtf8)
      else Success((rest[..n], rest[n..]))
  }

  /** proto.Unmarshal on the fields of TokenPair, merging into acc; the last occurrence wins. */
  function UnmarshalInto(raw: string, acc: TokenPair): Result<TokenPair, WireError>
    decreases |raw|
  {
    if raw == "" then Success(acc)
    else match ReadVarint(raw, 10)
      case None => Failure(Truncated)
      case Some((tag, body)) =>
        if tag == 0x0A || tag == 0x12 then
          match ReadString(body)
          case Failure(e) => Failure(e)
          case Success((s, rest)) =>
            UnmarshalInto(rest, if tag == 0x0A then acc.(accessToken := s) else acc.(refreshToken := s))
        else if tag == 0x18 || tag == 0x20 then
          match ReadVarint(body, 10)
          case None => Failure(Truncated)
          case Some((v, rest)) =>
            UnmarshalInto(rest, if tag == 0x18 then acc.(accessExpiresIn := Int64(v))
                                else acc.(refreshExpiresIn := Int64(v)))
        else Failure(UnknownField)
  }

  function Unmarshal(raw: string): Result<TokenPair, WireError> {
    UnmarshalInto(raw, EMPTY_PAIR)
  }

  // ----- round trip -----

  lemma ReadFull(n: nat, rest: string)
    requires n < TWO_64
    ensures ReadVarint(VarintThen(n, rest), 10) == Some((n, rest))
    ensures VarintThen(n, rest) != ""
  {
    CapacityOfTen();
    ReadVarintThen(n, rest, 10);
  }

  lemma UnmarshalStringField(tag: nat, s: string, rest: string, acc: TokenPair)
    requires tag == 0x0A || tag == 0x12
    requires |s| < TWO_63 && ValidUtf8(s)
    ensures UnmarshalInto(StringFieldThen(tag, s, rest), acc)
         == UnmarshalInto(rest, if s == "" then acc
                                else if tag == 0x0A then acc.(accessToken := s) else acc.(refreshToken := s))
  {
    if s != "" {
      var body := VarintThen(|s|, s + rest);
      ReadFull(tag, body);
      ReadFull(|s|, s + rest);
      assert (s + rest)[..|s|] == s && (s + rest)[|s|..] == rest;
    }
  }

  lemma UnmarshalIntField(tag: nat, n: int, rest: string, acc: TokenPair)
    requires tag == 0x18 || tag == 0x20
    requires -TWO_63 <= n < TWO_63
    ensures UnmarshalInto(IntFieldThen(tag, n, rest), acc)
         == UnmarshalInto(rest, if n == 0 then acc
                                else if tag == 0x18 then acc.(accessExpiresIn := n) else acc.(refreshExpiresIn := n))
  {
    if n != 0 {
      ReadFull(tag, VarintThen(Uint64(n), rest));
      ReadFull(Uint64(n), rest);
    }
  }

  lemma UnmarshalMarshal(p: GoPair)
    requires Marshal(p).Some?
    ensures Unmarshal(Marshal(p).value) == Success(p)
  {
    var f4 := IntFieldThen(0x20, p.refreshExpiresIn, "");
    var f3 := IntFieldThen(0x18, p.accessExpiresIn, f4);
    var f2 := StringFieldThen(0x12, p.refreshToken, f3);
    var a1 := EMPTY_PAIR.(accessToken := p.accessToken);
    var a2 := a1.(refreshToken := p.refreshToken);
    var a3 := a2.(accessExpiresIn := p.accessExpiresIn);
    UnmarshalStringField(0x0A, p.accessToken, f2, EMPTY_PAIR);
    UnmarshalStringField(0x12, p.refreshToken, f3, a1);
    UnmarshalIntField(0x18, p.accessExpiresIn, f4, a2);
    UnmarshalIntField(0x20, p.refreshExpiresIn, "", a3);
  }

  /** A marshalled pair is empty or starts with one of the four tags. */
  lemma MarshalFirstByte(p: GoPair)
    requires Marshal(p).Some?
    ensures var raw := Marshal(p).value;
            if p == EMPTY_PAIR then raw == ""
            else raw != "" && raw[0] as int in {0x0A, 0x12, 0x18, 0x20}
  {
  }

  lemma {:induction false} VarintIsBytes(n: nat, rest: string)
    requires IsBytes(rest)
    ensures IsBytes(VarintThen(n, rest))
  {
    if n >= 128 {
      VarintIsBytes(n / 128, rest);
    }
  }

  lemma StringFieldIsBytes(tag: nat, s: string, rest: string)
    requires IsBytes(s) && IsBytes(rest)
    ensures IsBytes(StringFieldThen(tag, s, rest))
  {
    if s != "" {
      VarintIsBytes(|s|, s + rest);
      VarintIsBytes(tag, VarintThen(|s|, s + rest));
    }
  }

  lemma IntFieldIsBytes(tag: nat, n: int, rest: string)
    requires -TWO_63 <= n < TWO_63 && IsBytes(rest)
    ensures IsBytes(IntFieldThen(tag, n, rest))
  {
    if n != 0 {
      VarintIsBytes(Uint64(n), rest);
      VarintIsBytes(tag, VarintThen(Uint64(n), rest));
    }
  }

  lemma MarshalIsBytes(p: GoPair)
    requires Marshal(p).Some?
    ensures IsBytes(Marshal(p).value)
  {
    ValidUtf8IsBytes(p.accessToken);
    ValidUtf8IsBytes(p.refreshToken);
    var f4 := IntFieldThen(0x20, p.refreshExpiresIn, "");
    var f3 := IntFieldThen(0x18, p.accessExpiresIn, f4);
    var f2 := StringFieldThen(0x12, p.refreshToken, f3);
    IntFieldIsBytes(0x20, p.refreshExpiresIn, "");
    IntFieldIsBytes(0x18, p.accessExpiresIn, f4);
    StringFieldIsBytes(0x12, p.refreshToken, f3);
    StringFieldIsBytes(0x0A, p.accessToken, f2);
  }
}
