/** Parsing the static caller keys, "key=identity,key=identity,…" (internal/config/config.go). */
module StaticCallerKeys {
  import opened Wrappers

  // ----- strings.Split and strings.LastIndex -----

  function FirstComma(s: string): (i: nat)
    requires ',' in s
    ensures i < |s| && s[i] == ',' && forall j :: 0 <= j < i ==> s[j] != ','
  {
    if s[0] == ',' then 0 else 1 + FirstComma(s[1..])
  }

  /** The parts of s between its commas. */
  function Split(s: string): (parts: seq<string>)
    ensures parts != []
    ensures forall i :: 0 <= i < |parts| ==> ',' !in parts[i]
    decreases |s|
  {
    if ',' !in s then [s] else var i := FirstComma(s); [s[..i]] + Split(s[i + 1..])
  }

  function Join(parts: seq<string>): string
    requires parts != []
  {
    if |parts| == 1 then parts[0] else parts[0] + ("," + Join(parts[1..]))
  }

  lemma SplitHere(p: string, rest: string)
    requires ',' !in p
    ensures Split(p + ("," + rest)) == [p] + Split(rest)
  {
    var s := p + ("," + rest);
    assert s[|p|] == ',' && s[..|p|] == p && s[|p| + 1..] == rest;
    CommaAt(s, |p|);
    hide FirstComma;
  }

  lemma CommaAt(s: string, n: nat)
    requires n < |s| && s[n] == ',' && ',' !in s[..n]
    ensures FirstComma(s) == n
  {
    hide FirstComma;
    forall j | 0 <= j < n ensures s[j] != ',' {
      assert s[j] == s[..n][j];
    }
  }

  lemma {:induction false} JoinSplit(s: string)
    ensures Join(Split(s)) == s
    decreases |s|
  {
    hide FirstComma;
    if ',' in s {
      var i := FirstComma(s);
      var p, rest := s[..i], s[i + 1..];
      assert s == p + ("," + rest);
      JoinSplit(rest);
      SplitHere(p, rest);
      hide Split;
      assert ([p] + Split(rest))[1..] == Split(rest);
    }
  }

  lemma {:induction false} SplitJoin(parts: seq<string>)
    requires parts != [] && forall i :: 0 <= i < |parts| ==> ',' !in parts[i]
    ensures Split(Join(parts)) == parts
  {
    hide FirstComma;
    if |parts| == 1 {
      assert parts == [parts[0]];
    } else {
      hide Split;
      SplitJoin(parts[1..]);
      SplitHere(parts[0], Join(parts[1..]));
      assert [parts[0]] + parts[1..] == parts;
    }
  }

  /** The index of the last '=', or -1. */
  function LastEq(s: string): (i: int)
    ensures -1 <= i < |s|
    ensures i >= 0 ==> s[i] == '='
    ensures forall j :: i < j < |s| ==> s[j] != '='
  {
    if s == [] then -1
    else if s[|s| - 1] == '=' then |s| - 1
    else LastEq(s[..|s| - 1])
  }

  // ----- the parser -----

  predicate GoodPart(p: string) {
    0 < LastEq(p) < |p| - 1
  }

  function KeyOf(p: string): string
    requires GoodPart(p)
  {
    p[..LastEq(p)]
  }

  function IdentityOf(p: string): string
    requires GoodPart(p)
  {
    p[LastEq(p) + 1..]
  }

  /** A good part has an '=' strictly inside and none after it. */
  lemma GoodMeans(p: string)
    ensures GoodPart(p) <==> exists i :: 0 < i < |p| - 1 && p[i] == '=' && '=' !in p[i + 1..]
    ensures GoodPart(p) ==> p == KeyOf(p) + "=" + IdentityOf(p) && KeyOf(p) != "" && IdentityOf(p) != "" && '=' !in IdentityOf(p)
  {
    hide LastEq;
    var n := LastEq(p);
    if GoodPart(p) {
      assert p[n] == '=' && '=' !in p[n + 1..];
    }
    if i :| 0 < i < |p| - 1 && p[i] == '=' && '=' !in p[i + 1..] {
      LaterEq(p, i);
    }
  }

  lemma LaterEq(p: string, i: nat)
    requires i < |p|
    ensures i < LastEq(p) ==> '=' in p[i + 1..]
  {
    hide LastEq;
    var n := LastEq(p);
    if i < n {
      assert p[i + 1..][n - i - 1] == '=';
    }
  }

  predicate AllGood(parts: seq<string>) {
    forall i :: 0 <= i < |parts| ==> GoodPart(parts[i])
  }

  /** The environment variable's parts; an empty one has none. */
  function Parts(env: string): seq<string> {
    if env == "" then [] else Split(env)
  }

  /** What the parts say, later ones overriding earlier ones. */
  function Entries(parts: seq<string>): map<string, string>
    requires AllGood(parts)
  {
    if parts == [] then map[]
    else
      var last := parts[|parts| - 1];
      Entries(parts[..|parts| - 1])[KeyOf(last) := IdentityOf(last)]
  }

  /** The loop in Load; the error names the first bad part. */
  method ParseStaticCallerKeys(env: string) returns (r: Result<map<string, string>, string>)
    ensures r.Success? <==> AllGood(Parts(env))
    ensures r.Success? ==> r.value == Entries(Parts(env))
    ensures r.Failure? ==>
              exists i :: 0 <= i < |Parts(env)| && r.error == Parts(env)[i] && !GoodPart(r.error)
                          && AllGood(Parts(env)[..i])
  {
    hide Split, LastEq, Entries, GoodPart, KeyOf, IdentityOf;
    var staticCallerKeys: map<string, string> := map[];
    NoEntries();
    if env != "" {
      var pairs := Split(env);
      for i := 0 to |pairs|
        invariant AllGood(pairs[..i]) && staticCallerKeys == Entries(pairs[..i])
      {
        var pair := pairs[i];
        var idx := LastEq(pair);
        GoodIff(pair);
        if idx <= 0 || idx == |pair| - 1 {
          return Failure(pair);
        }
        OneMore(pairs, i);
        staticCallerKeys := staticCallerKeys[pair[..idx] := pair[idx + 1..]];
      }
      assert pairs[..|pairs|] == pairs;
    }
    return Success(staticCallerKeys);
  }

  lemma NoEntries()
    ensures Entries([]) == map[]
  {
  }

  lemma GoodIff(p: string)
    ensures GoodPart(p) <==> !(LastEq(p) <= 0 || LastEq(p) == |p| - 1)
    ensures GoodPart(p) ==> KeyOf(p) == p[..LastEq(p)] && IdentityOf(p) == p[LastEq(p) + 1..]
  {
    hide LastEq;
  }

  lemma OneMore(parts: seq<string>, i: nat)
    requires i < |parts| && AllGood(parts[..i]) && GoodPart(parts[i])
    ensures AllGood(parts[..i + 1])
    ensures Entries(parts[..i + 1]) == Entries(parts[..i])[KeyOf(parts[i]) := IdentityOf(parts[i])]
  {
    hide GoodPart, KeyOf, IdentityOf;
    assert parts[..i + 1][..i] == parts[..i];
  }

  /** The index of the last part with this key. */
  function Latest(parts: seq<string>, key: string): (r: Option<nat>)
    requires AllGood(parts)
    ensures r.None? ==> forall i :: 0 <= i < |parts| ==> KeyOf(parts[i]) != key
    ensures r.Some? ==>
              && r.value < |parts| && KeyOf(parts[r.value]) == key
              && forall i :: r.value < i < |parts| ==> KeyOf(parts[i]) != key
  {
    if parts == [] then None
    else if KeyOf(parts[|parts| - 1]) == key then Some(|parts| - 1)
    else Latest(parts[..|parts| - 1], key)
  }

  /** The result has exactly the keys of the parts, each with the identity of the last part that has it. */
  lemma {:induction false} LastPartWins(parts: seq<string>, key: string)
    requires AllGood(parts)
    ensures key in Entries(parts) <==> Latest(parts, key).Some?
    ensures key in Entries(parts) ==> Entries(parts)[key] == IdentityOf(parts[Latest(parts, key).value])
  {
    hide KeyOf, IdentityOf, GoodPart;
    if parts != [] {
      LastPartWins(parts[..|parts| - 1], key);
    }
  }

  // ----- rendering and parsing back -----

  function Pair(key: string, identity: string): string {
    key + ("=" + identity)
  }

  /** A pair that survives: nothing empty, no comma, and no '=' in the identity. Keys may hold '='. */
  predicate Plain(key: string, identity: string) {
    key != "" && identity != "" && ',' !in key && ',' !in identity && '=' !in identity
  }

  function Rendered(m: map<string, string>, order: seq<string>): seq<string>
    requires forall k :: k in order ==> k in m
  {
    seq(|order|, i requires 0 <= i < |order| => Pair(order[i], m[order[i]]))
  }

  /** The pairs of m, in the order given. */
  function Render(m: map<string, string>, order: seq<string>): string
    requires forall k :: k in order ==> k in m
  {
    if order == [] then "" else Join(Rendered(m, order))
  }

  lemma PairIsGood(key: string, identity: string)
    requires key != "" && identity != "" && '=' !in identity
    ensures GoodPart(Pair(key, identity)) && KeyOf(Pair(key, identity)) == key && IdentityOf(Pair(key, identity)) == identity
  {
    var p := Pair(key, identity);
    assert p[|key|] == '=' && p[|key| + 1..] == identity && p[..|key|] == key;
    forall j | |key| < j < |p| ensures p[j] != '=' {
      assert p[j] == identity[j - |key| - 1];
    }
    assert LastEq(p) == |key|;
  }

  /** Parsing what was rendered, in any order, gives the map back. */
  lemma RoundTrip(m: map<string, string>, order: seq<string>)
    requires (forall k :: k in m <==> k in order) && forall k :: k in m ==> Plain(k, m[k])
    ensures AllGood(Parts(Render(m, order))) && Entries(Parts(Render(m, order))) == m
  {
    var parts := Rendered(m, order);
    RenderedParts(m, order);
    if order != [] {
      SplitJoin(parts);
      JoinNotEmpty(parts);
    }
    assert Parts(Render(m, order)) == parts;
    RenderedEntries(m, order);
  }

  lemma RenderedEntries(m: map<string, string>, order: seq<string>)
    requires (forall k :: k in m <==> k in order) && forall k :: k in m ==> Plain(k, m[k])
    ensures AllGood(Rendered(m, order)) && Entries(Rendered(m, order)) == m
  {
    hide Plain, Entries, KeyOf, IdentityOf, GoodPart, Rendered;
    var parts := Rendered(m, order);
    RenderedParts(m, order);
    forall k ensures k in Entries(parts) <==> k in m
             ensures k in m ==> Entries(parts)[k] == m[k]
    {
      LastPartWins(parts, k);
      if k in m {
        var j :| 0 <= j < |order| && order[j] == k;
        assert KeyOf(parts[j]) == k;
      }
    }
  }

  lemma RenderedParts(m: map<string, string>, order: seq<string>)
    requires (forall k :: k in order ==> k in m) && forall k :: k in m ==> Plain(k, m[k])
    ensures var parts := Rendered(m, order);
            && |parts| == |order| && AllGood(parts) && (forall i :: 0 <= i < |parts| ==> ',' !in parts[i])
            && forall i :: 0 <= i < |order| ==> KeyOf(parts[i]) == order[i] && IdentityOf(parts[i]) == m[order[i]]
  {
    var parts := Rendered(m, order);
    forall i | 0 <= i < |order|
      ensures GoodPart(parts[i]) && KeyOf(parts[i]) == order[i] && IdentityOf(parts[i]) == m[order[i]] && ',' !in parts[i]
    {
      assert Plain(order[i], m[order[i]]);
      PairIsGood(order[i], m[order[i]]);
    }
  }

  lemma JoinNotEmpty(parts: seq<string>)
    requires parts != [] && AllGood(parts)
    ensures Join(parts) != ""
  {
  }

  /** The conditions are exact: a single pair parses back to itself if and only if it is plain. */
  lemma PairRoundTripIff(key: string, identity: string)
    ensures AllGood(Parts(Pair(key, identity))) && Entries(Parts(Pair(key, identity))) == map[key := identity]
            <==> Plain(key, identity)
  {
    var parts := Parts(Pair(key, identity));
    if Plain(key, identity) {
      assert Rendered(map[key := identity], [key]) == [Pair(key, identity)];
      RoundTrip(map[key := identity], [key]);
    }
    if AllGood(parts) && Entries(parts) == map[key := identity] {
      LastPartWins(parts, key);
      assert key in Entries(parts);
    }
  }
}
