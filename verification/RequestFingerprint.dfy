/**
  The request fingerprint (internal/interceptor/idempotency.go): the hex SHA-256 digest of a
  canonical JSON rendering of the fields that determine a request's result. The digest is a
  parameter, sha.
 */
module RequestFingerprint {
  import opened ByteStrings
  import Json

  /** A Go map from claim name to value; a request without claims decodes from the wire as nil. */
  datatype Claims = NilClaims | MadeClaims(entries: map<string, string>)

  datatype Rpc = IssueToken | RefreshToken

  datatype Input =
    | IssueInput(sub: string, tenantId: string, claims: Claims, audiences: seq<string>)
    | RefreshInput(refreshToken: string, tenantId: string, claims: Claims)
  {
    function Method(): Rpc {
      if IssueInput? then IssueToken else RefreshToken
    }
  }

  predicate ValidClaims(c: Claims) {
    c.MadeClaims? ==> forall k :: k in c.entries ==> ValidUtf8(k) && ValidUtf8(c.entries[k])
  }

  /** What proto3 guarantees of a decoded request: every string is valid UTF-8. */
  predicate ValidInput(i: Input) {
    && ValidUtf8(i.tenantId) && ValidClaims(i.claims)
    && (i.IssueInput? ==> ValidUtf8(i.sub) && forall a :: a in i.audiences ==> ValidUtf8(a))
    && (i.RefreshInput? ==> ValidUtf8(i.refreshToken))
  }

  /** Same RPC and same content; the order of audiences does not matter. */
  predicate SameContent(a: Input, b: Input) {
    match (a, b)
    case (IssueInput(s1, t1, c1, a1), IssueInput(s2, t2, c2, a2)) =>
      s1 == s2 && t1 == t2 && c1 == c2 && multiset(a1) == multiset(a2)
    case (RefreshInput(_, _, _), RefreshInput(_, _, _)) => a == b
    case _ => false
  }

  // ----- canonical rendering -----

  /** The members of an object for m, keys in the order given, then the closing brace and rest. */
  function MembersThen(keys: seq<string>, m: map<string, string>, rest: string): string
    requires forall k :: k in keys ==> k in m
  {
    if keys == [] then "}" + rest
    else Json.QuoteThen(keys[0], ":" + Json.QuoteThen(m[keys[0]],
           if |keys| == 1 then "}" + rest else "," + MembersThen(keys[1..], m, rest)))
  }

  function ClaimsThen(c: Claims, rest: string): string {
    if c.NilClaims? then "null" + rest
    else "{" + MembersThen(SortedElements(c.entries.Keys), c.entries, rest)
  }

  function ElementsThen(xs: seq<string>, rest: string): string {
    if xs == [] then "]" + rest
    else Json.QuoteThen(xs[0], if |xs| == 1 then "]" + rest else "," + ElementsThen(xs[1..], rest))
  }

  function ArrayThen(xs: seq<string>, rest: string): string {
    "[" + ElementsThen(xs, rest)
  }

  const SUB_MEMBER: string := "{\"sub\":"
  const REFRESH_MEMBER: string := "{\"refresh_token\":"
  const TENANT_MEMBER: string := ",\"tenant_id\":"
  const CLAIMS_MEMBER: string := ",\"claims\":"
  const AUDIENCES_MEMBER: string := ",\"audiences\":"

  function IssueJson(sub: string, tenantId: string, claims: Claims, sortedAudiences: seq<string>): string {
    SUB_MEMBER + Json.QuoteThen(sub, TENANT_MEMBER + Json.QuoteThen(tenantId,
      CLAIMS_MEMBER + ClaimsThen(claims, AUDIENCES_MEMBER + ArrayThen(sortedAudiences, "}"))))
  }

  function Canonical(i: Input): string {
    match i
    case IssueInput(sub, tenantId, claims, audiences) => IssueJson(sub, tenantId, claims, Sorted(audiences))
    case RefreshInput(token, tenantId, claims) =>
      REFRESH_MEMBER + Json.QuoteThen(token, TENANT_MEMBER + Json.QuoteThen(tenantId,
        CLAIMS_MEMBER + ClaimsThen(claims, "}")))
  }

  function HexDigest(s: string): (r: string)
    requires IsBytes(s)
    ensures |r| == 2 * |s|
    ensures forall j :: 0 <= j < |r| ==> r[j] as int < 0x80
  {
    if s == "" then ""
    else [Json.Hex(s[0] as int / 16), Json.Hex(s[0] as int % 16)] + HexDigest(s[1..])
  }

  /** What the model asks of SHA-256: 32 bytes. */
  ghost predicate IsDigest(sha: string -> string) {
    forall x :: IsBytes(sha(x)) && |sha(x)| == 32
  }

  function Fingerprint(sha: string -> string, i: Input): (f: string)
    requires IsDigest(sha)
    ensures |f| == 64 && ValidUtf8(f)
  {
    var f := HexDigest(sha(Canonical(i)));
    AsciiIsValidUtf8(f);
    f
  }

  // ----- injectivity -----

  lemma AfterQuote(s: string, p: string, x: string, t: string, y: string)
    requires ValidUtf8(s) && ValidUtf8(t)
    requires Json.QuoteThen(s, p + x) == Json.QuoteThen(t, p + y)
    ensures s == t && x == y
  {
    Json.QuoteInjective(s, p + x, t, p + y);
    CancelPrefix(p, x, y);
  }

  lemma {:induction false} ElementsInjective(xs: seq<string>, x: string, ys: seq<string>, y: string)
    requires forall s :: s in xs ==> ValidUtf8(s)
    requires forall s :: s in ys ==> ValidUtf8(s)
    requires ElementsThen(xs, x) == ElementsThen(ys, y)
    ensures xs == ys && x == y
  {
    hide ValidUtf8;
    if xs == [] || ys == [] {
      assert ElementsThen(xs, x)[0] == if xs == [] then ']' else '"';
      assert ElementsThen(ys, y)[0] == if ys == [] then ']' else '"';
      CancelPrefix("]", x, y);
    } else {
      var u := if |xs| == 1 then "]" + x else "," + ElementsThen(xs[1..], x);
      var v := if |ys| == 1 then "]" + y else "," + ElementsThen(ys[1..], y);
      Json.QuoteInjective(xs[0], u, ys[0], v);
      assert u[0] == (if |xs| == 1 then ']' else ',') && v[0] == (if |ys| == 1 then ']' else ',');
      if |xs| == 1 {
        CancelPrefix("]", x, y);
      } else {
        CancelPrefix(",", ElementsThen(xs[1..], x), ElementsThen(ys[1..], y));
        ElementsInjective(xs[1..], x, ys[1..], y);
        assert xs == [xs[0]] + xs[1..] && ys == [ys[0]] + ys[1..];
      }
    }
  }

  ghost predicate ValidMembers(keys: seq<string>, m: map<string, string>) {
    forall k :: k in keys ==> k in m && ValidUtf8(k) && ValidUtf8(m[k])
  }

  /** What follows the first member. */
  function MembersTail(keys: seq<string>, m: map<string, string>, rest: string): (t: string)
    requires keys != [] && forall k :: k in keys ==> k in m
    ensures t != "" && t[0] == if |keys| == 1 then '}' else ','
  {
    if |keys| == 1 then "}" + rest else "," + MembersThen(keys[1..], m, rest)
  }

  lemma MembersUnfold(keys: seq<string>, m: map<string, string>, rest: string)
    requires ValidMembers(keys, m)
    ensures keys == [] ==> MembersThen(keys, m, rest) == "}" + rest
    ensures keys != [] ==>
              MembersThen(keys, m, rest) ==
                Json.QuoteThen(keys[0], ":" + Json.QuoteThen(m[keys[0]], MembersTail(keys, m, rest)))
    ensures MembersThen(keys, m, rest)[..1] == if keys == [] then "}" else "\""
  {
    hide ValidUtf8;
  }

  lemma {:induction false} MembersInjective(
      ks: seq<string>, m: map<string, string>, x: string, ls: seq<string>, n: map<string, string>, y: string)
    requires ValidMembers(ks, m) && ValidMembers(ls, n)
    requires MembersThen(ks, m, x) == MembersThen(ls, n, y)
    ensures ks == ls && x == y && forall k :: k in ks ==> m[k] == n[k]
  {
    hide ValidUtf8, MembersThen, Json.QuoteThen;
    MembersUnfold(ks, m, x);
    MembersUnfold(ls, n, y);
    if ks == [] {
      CancelPrefix("}", x, y);
    } else {
      var u, v := MembersTail(ks, m, x), MembersTail(ls, n, y);
      AfterQuote(ks[0], ":", Json.QuoteThen(m[ks[0]], u), ls[0], Json.QuoteThen(n[ls[0]], v));
      Json.QuoteInjective(m[ks[0]], u, n[ls[0]], v);
      if |ks| == 1 {
        CancelPrefix("}", x, y);
        assert ks == [ks[0]] && ls == [ls[0]];
      } else {
        CancelPrefix(",", MembersThen(ks[1..], m, x), MembersThen(ls[1..], n, y));
        MembersInjective(ks[1..], m, x, ls[1..], n, y);
        assert ks == [ks[0]] + ks[1..] && ls == [ls[0]] + ls[1..];
      }
    }
  }

  lemma ClaimsInjective(c: Claims, x: string, d: Claims, y: string)
    requires ValidClaims(c) && ValidClaims(d)
    requires ClaimsThen(c, x) == ClaimsThen(d, y)
    ensures c == d && x == y
  {
    hide ValidUtf8, MembersThen, SortedElements;
    assert ClaimsThen(c, x)[0] == (if c.NilClaims? then 'n' else '{');
    assert ClaimsThen(d, y)[0] == (if d.NilClaims? then 'n' else '{');
    if c.NilClaims? {
      CancelPrefix("null", x, y);
    } else {
      var ks, ls := SortedElements(c.entries.Keys), SortedElements(d.entries.Keys);
      CancelPrefix("{", MembersThen(ks, c.entries, x), MembersThen(ls, d.entries, y));
      MembersInjective(ks, c.entries, x, ls, d.entries, y);
      assert forall k :: k in c.entries <==> k in ks;
      assert forall k :: k in d.entries <==> k in ls;
      assert c.entries == d.entries;
    }
  }

  lemma SortedKeepsElements(xs: seq<string>)
    ensures forall s :: s in Sorted(xs) <==> s in xs
  {
    assert forall s :: s in Sorted(xs) <==> s in multiset(Sorted(xs));
    assert forall s :: s in xs <==> s in multiset(xs);
  }

  lemma IssueInjective(a: Input, b: Input)
    requires a.IssueInput? && b.IssueInput? && ValidInput(a) && ValidInput(b) && Canonical(a) == Canonical(b)
    ensures SameContent(a, b)
  {
    var sa, sb := Sorted(a.audiences), Sorted(b.audiences);
    var xa, xb := ArrayThen(sa, "}"), ArrayThen(sb, "}");
    var ca, cb := ClaimsThen(a.claims, AUDIENCES_MEMBER + xa), ClaimsThen(b.claims, AUDIENCES_MEMBER + xb);
    var ta, tb := Json.QuoteThen(a.tenantId, CLAIMS_MEMBER + ca), Json.QuoteThen(b.tenantId, CLAIMS_MEMBER + cb);
    CancelPrefix(SUB_MEMBER, Json.QuoteThen(a.sub, TENANT_MEMBER + ta), Json.QuoteThen(b.sub, TENANT_MEMBER + tb));
    AfterQuote(a.sub, TENANT_MEMBER, ta, b.sub, tb);
    AfterQuote(a.tenantId, CLAIMS_MEMBER, ca, b.tenantId, cb);
    ClaimsInjective(a.claims, AUDIENCES_MEMBER + xa, b.claims, AUDIENCES_MEMBER + xb);
    CancelPrefix(AUDIENCES_MEMBER, xa, xb);
    CancelPrefix("[", ElementsThen(sa, "}"), ElementsThen(sb, "}"));
    SortedKeepsElements(a.audiences);
    SortedKeepsElements(b.audiences);
    ElementsInjective(sa, "}", sb, "}");
    SortedIsCanonical(a.audiences, b.audiences);
  }

  lemma RefreshInjective(a: Input, b: Input)
    requires a.RefreshInput? && b.RefreshInput? && ValidInput(a) && ValidInput(b) && Canonical(a) == Canonical(b)
    ensures a == b
  {
    var ca, cb := ClaimsThen(a.claims, "}"), ClaimsThen(b.claims, "}");
    var ta, tb := Json.QuoteThen(a.tenantId, CLAIMS_MEMBER + ca), Json.QuoteThen(b.tenantId, CLAIMS_MEMBER + cb);
    CancelPrefix(REFRESH_MEMBER,
      Json.QuoteThen(a.refreshToken, TENANT_MEMBER + ta), Json.QuoteThen(b.refreshToken, TENANT_MEMBER + tb));
    AfterQuote(a.refreshToken, TENANT_MEMBER, ta, b.refreshToken, tb);
    AfterQuote(a.tenantId, CLAIMS_MEMBER, ca, b.tenantId, cb);
    ClaimsInjective(a.claims, "}", b.claims, "}");
  }

  lemma RenderingsNameTheirRpc(a: Input)
    ensures |Canonical(a)| > 2 && Canonical(a)[2] == (if a.IssueInput? then 's' else 'r')
  {
    assert SUB_MEMBER[2] == 's' && REFRESH_MEMBER[2] == 'r';
  }

  /** Two requests have the same canonical rendering exactly when they are the same RPC with the same content. */
  lemma CanonicalIff(a: Input, b: Input)
    requires ValidInput(a) && ValidInput(b)
    ensures Canonical(a) == Canonical(b) <==> SameContent(a, b)
  {
    RenderingsNameTheirRpc(a);
    RenderingsNameTheirRpc(b);
    if a.IssueInput? && b.IssueInput? {
      SortedIsCanonical(a.audiences, b.audiences);
      if Canonical(a) == Canonical(b) { IssueInjective(a, b); }
    } else if a.RefreshInput? && b.RefreshInput? {
      if Canonical(a) == Canonical(b) { RefreshInjective(a, b); }
    }
  }

  lemma {:induction false} HexDigestInjective(s: string, t: string)
    requires IsBytes(s) && IsBytes(t) && HexDigest(s) == HexDigest(t)
    ensures s == t
  {
    assert |HexDigest(s)| == 2 * |s| && |HexDigest(t)| == 2 * |t|;
    if s != "" {
      var u, v := HexDigest(s), HexDigest(t);
      assert Json.HexValue(u[0]) == s[0] as int / 16 && Json.HexValue(u[1]) == s[0] as int % 16;
      assert Json.HexValue(v[0]) == t[0] as int / 16 && Json.HexValue(v[1]) == t[0] as int % 16;
      assert s[0] as int == t[0] as int;
      assert u[2..] == HexDigest(s[1..]) && v[2..] == HexDigest(t[1..]);
      HexDigestInjective(s[1..], t[1..]);
      assert s == [s[0]] + s[1..] && t == [t[0]] + t[1..];
    }
  }

  /** Fingerprints agree exactly on requests with the same content, unless sha collides on these two. */
  lemma FingerprintIff(sha: string -> string, a: Input, b: Input)
    requires IsDigest(sha) && ValidInput(a) && ValidInput(b)
    requires sha(Canonical(a)) == sha(Canonical(b)) ==> Canonical(a) == Canonical(b)
    ensures Fingerprint(sha, a) == Fingerprint(sha, b) <==> SameContent(a, b)
  {
    CanonicalIff(a, b);
    if Fingerprint(sha, a) == Fingerprint(sha, b) {
      HexDigestInjective(sha(Canonical(a)), sha(Canonical(b)));
    }
  }

  // ----- computeIssueFingerprint -----

  /** sort.Strings: sorts the slice in place. */
  method SortStrings(a: array<string>)
    modifies a
    ensures a[..] == Sorted(old(a[..]))
  {
    var s := Sorted(a[..]);
    forall i | 0 <= i < a.Length {
      a[i] := s[i];
    }
  }

  /** Hashes a sorted copy of the audiences; the request's own slice is left alone. */
  method ComputeIssueFingerprint(
      sha: string -> string, sub: string, tenantId: string, claims: Claims, reqAudiences: array<string>)
    returns (fingerprint: string)
    requires IsDigest(sha)
    ensures reqAudiences[..] == old(reqAudiences[..])
    ensures fingerprint == Fingerprint(sha, IssueInput(sub, tenantId, claims, reqAudiences[..]))
  {
    var audiences := new string[reqAudiences.Length];
    forall i | 0 <= i < reqAudiences.Length {
      audiences[i] := reqAudiences[i];
    }
    assert audiences[..] == reqAudiences[..];
    SortStrings(audiences);
    fingerprint := HexDigest(sha(IssueJson(sub, tenantId, claims, audiences[..])));
  }
}
