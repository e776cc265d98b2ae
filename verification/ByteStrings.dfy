/**
  Go strings and byte slices.

  A Go string is a sequence of bytes. The model writes the byte b as the character with code b, so
  a Go string or []byte is a Dafny string that satisfies IsBytes. The module gives the byte-wise
  order behind sort.Strings, a sort, and UTF-8 validity as Go's utf8 package decides it.
 */
module ByteStrings {

  ghost predicate IsBytes(s: string) {
    forall i :: 0 <= i < |s| ==> s[i] as int < 0x100
  }

  /** The character that stands for byte b. */
  function Byte(b: int): (c: char)
    requires 0 <= b < 0x100
    ensures c as int == b
  {
    b as char
  }

  lemma CancelPrefix(p: string, x: string, y: string)
    requires p + x == p + y
    ensures x == y
  {
    assert (p + x)[|p|..] == x && (p + y)[|p|..] == y;
  }

  // ----- order and sorting -----

  /** Go's <= on strings: byte-wise lexicographic. */
  predicate Leq(s: string, t: string) {
    if s == "" then true
    else if t == "" then false
    else if s[0] == t[0] then Leq(s[1..], t[1..])
    else s[0] < t[0]
  }

  /** The order by the first byte that differs; a prefix comes first. */
  lemma {:induction false} LeqIff(s: string, t: string)
    ensures Leq(s, t) <==> s <= t || exists i :: 0 <= i < |s| && i < |t| && s[..i] == t[..i] && s[i] < t[i]
  {
    if s != "" && t != "" {
      if s[0] == t[0] {
        LeqIff(s[1..], t[1..]);
        assert s == [s[0]] + s[1..] && t == [t[0]] + t[1..];
        if i :| 0 <= i < |s| && i < |t| && s[..i] == t[..i] && s[i] < t[i] {
          assert s[1..][..i - 1] == s[1..i] == t[1..i] == t[1..][..i - 1];
        }
        if i :| 0 <= i < |s| - 1 && i < |t| - 1 && s[1..][..i] == t[1..][..i] && s[1..][i] < t[1..][i] {
          assert s[..i + 1] == [s[0]] + s[1..][..i] == t[..i + 1];
        }
      } else {
        if i :| 0 <= i < |s| && i < |t| && s[..i] == t[..i] && s[i] < t[i] {
          SameFirst(s, t, i);
        }
        assert s[..0] == t[..0];
      }
    }
  }

  lemma SameFirst(s: string, t: string, i: nat)
    requires i < |s| && i < |t| && s[..i] == t[..i]
    ensures i > 0 ==> s[0] == t[0]
  {
    if i > 0 {
      assert s[..i][0] == s[0] && t[..i][0] == t[0];
    }
  }

  lemma {:induction false} LeqTotal(s: string, t: string)
    ensures Leq(s, t) || Leq(t, s)
    ensures Leq(s, t) && Leq(t, s) ==> s == t
  {
    if s != "" && t != "" && s[0] == t[0] {
      LeqTotal(s[1..], t[1..]);
      assert s == [s[0]] + s[1..] && t == [t[0]] + t[1..];
    }
  }

  lemma {:induction false} LeqTransitive(s: string, t: string, u: string)
    requires Leq(s, t) && Leq(t, u)
    ensures Leq(s, u)
  {
    if s != "" && t != "" && u != "" && s[0] == t[0] == u[0] {
      LeqTransitive(s[1..], t[1..], u[1..]);
    }
  }

  ghost predicate IsSorted(xs: seq<string>) {
    forall i, j :: 0 <= i < j < |xs| ==> Leq(xs[i], xs[j])
  }

  function Insert(x: string, xs: seq<string>): (r: seq<string>)
    ensures multiset(r) == multiset(xs) + multiset{x}
    ensures |r| == |xs| + 1
  {
    if xs == [] then [x]
    else if Leq(x, xs[0]) then [x] + xs
    else
      assert xs == [xs[0]] + xs[1..];
      [xs[0]] + Insert(x, xs[1..])
  }

  lemma {:induction false} InsertKeepsSorted(x: string, xs: seq<string>)
    requires IsSorted(xs)
    ensures IsSorted(Insert(x, xs))
  {
    if xs != [] {
      LeqTotal(x, xs[0]);
      if Leq(x, xs[0]) {
        forall i | 0 <= i < |xs| ensures Leq(x, xs[i]) {
          if i > 0 { LeqTransitive(x, xs[0], xs[i]); }
        }
      } else {
        InsertKeepsSorted(x, xs[1..]);
        var r := Insert(x, xs[1..]);
        forall i | 0 <= i < |r| ensures Leq(xs[0], r[i]) {
          assert r[i] in multiset(r);
          assert r[i] == x || r[i] in xs[1..];
        }
      }
    }
  }

  /** What sort.Strings leaves in a slice that held xs. */
  function Sorted(xs: seq<string>): (r: seq<string>)
    ensures multiset(r) == multiset(xs)
    ensures |r| == |xs|
  {
    if xs == [] then []
    else
      assert xs == [xs[0]] + xs[1..];
      Insert(xs[0], Sorted(xs[1..]))
  }

  lemma {:induction false} SortedIsSorted(xs: seq<string>)
    ensures IsSorted(Sorted(xs))
  {
    if xs != [] {
      SortedIsSorted(xs[1..]);
      InsertKeepsSorted(xs[0], Sorted(xs[1..]));
    }
  }

  lemma HeadIsLeast(xs: seq<string>, x: string)
    requires IsSorted(xs) && x in multiset(xs)
    ensures xs != [] && Leq(xs[0], x)
  {
    assert x in xs;
    var i :| 0 <= i < |xs| && xs[i] == x;
    LeqTotal(xs[0], xs[0]);
  }

  lemma DropHead(xs: seq<string>)
    requires xs != []
    ensures multiset(xs[1..]) == multiset(xs) - multiset{xs[0]}
    ensures IsSorted(xs) ==> IsSorted(xs[1..])
  {
    assert xs == [xs[0]] + xs[1..];
  }

  lemma {:induction false} SortedUnique(xs: seq<string>, ys: seq<string>)
    requires IsSorted(xs) && IsSorted(ys) && multiset(xs) == multiset(ys)
    ensures xs == ys
  {
    assert |multiset(xs)| == |xs| && |multiset(ys)| == |ys|;
    if xs != [] {
      assert xs[0] in multiset(xs) && ys[0] in multiset(ys);
      HeadIsLeast(xs, ys[0]);
      HeadIsLeast(ys, xs[0]);
      LeqTotal(xs[0], ys[0]);
      DropHead(xs);
      DropHead(ys);
      SortedUnique(xs[1..], ys[1..]);
      assert xs == [xs[0]] + xs[1..] && ys == [ys[0]] + ys[1..];
    }
  }

  /** Sorting forgets order and nothing else. */
  lemma SortedIsCanonical(xs: seq<string>, ys: seq<string>)
    ensures Sorted(xs) == Sorted(ys) <==> multiset(xs) == multiset(ys)
  {
    if multiset(xs) == multiset(ys) {
      SortedIsSorted(xs);
      SortedIsSorted(ys);
      SortedUnique(Sorted(xs), Sorted(ys));
    }
  }

  predicate IsLeast(x: string, s: set<string>) {
    x in s && forall y :: y in s ==> Leq(x, y)
  }

  lemma {:induction false} LeastExists(s: set<string>)
    requires s != {}
    ensures exists x :: IsLeast(x, s)
  {
    var x :| x in s;
    LeqTotal(x, x);
    var rest := s - {x};
    if rest == {} {
      assert s == {x};
      assert IsLeast(x, s);
    } else {
      LeastExists(rest);
      var m :| IsLeast(m, rest);
      LeqTotal(x, m);
      if Leq(x, m) {
        forall y | y in rest ensures Leq(x, y) { LeqTransitive(x, m, y); }
        assert IsLeast(x, s);
      } else {
        assert IsLeast(m, s);
      }
    }
  }

  function Least(s: set<string>): (x: string)
    requires s != {}
    ensures IsLeast(x, s)
  {
    LeastExists(s);
    assert forall x, y :: IsLeast(x, s) && IsLeast(y, s) ==> x == y by {
      forall x, y | IsLeast(x, s) && IsLeast(y, s) ensures x == y { LeqTotal(x, y); }
    }
    var x :| IsLeast(x, s);
    x
  }

  /** The elements of a finite set, in sorted order. */
  function SortedElements(s: set<string>): (r: seq<string>)
    ensures forall x :: x in r <==> x in s
    ensures IsSorted(r)
  {
    if s == {} then [] else [Least(s)] + SortedElements(s - {Least(s)})
  }

  // ----- UTF-8 -----

  predicate Continuation(c: char) {
    0x80 <= c as int < 0xC0
  }

  /**
    The number of bytes of the first rune of s, or 0 when s does not start with a well-formed
    encoding: no overlong forms, no surrogates, nothing above U+10FFFF.
   */
  function RuneSize(s: string): (n: nat)
    ensures n <= 4 && n <= |s|
    ensures s != "" && s[0] as int < 0x80 ==> n == 1
    ensures n > 1 ==> forall i :: 0 <= i < n ==> 0x80 <= s[i] as int < 0x100
  {
    if s == "" then 0
    else
      var b := s[0] as int;
      if b < 0x80 then 1
      else if 0xC2 <= b < 0xE0 then
        if |s| >= 2 && Continuation(s[1]) then 2 else 0
      else if 0xE0 <= b < 0xF0 then
        if |s| >= 3 && Continuation(s[1]) && Continuation(s[2])
           && (b == 0xE0 ==> s[1] as int >= 0xA0) && (b == 0xED ==> s[1] as int < 0xA0) then 3 else 0
      else if 0xF0 <= b < 0xF5 then
        if |s| >= 4 && Continuation(s[1]) && Continuation(s[2]) && Continuation(s[3])
           && (b == 0xF0 ==> s[1] as int >= 0x90) && (b == 0xF4 ==> s[1] as int < 0x90) then 4 else 0
      else 0
  }

  /** A Unicode scalar value: a code point that is not a surrogate. */
  predicate Scalar(v: int) {
    0 <= v < 0xD800 || 0xE000 <= v < 0x110000
  }

  /** The bytes of a code point. */
  function EncodeRune(v: int): string
    requires 0 <= v < 0x110000
  {
    if v < 0x80 then [Byte(v)]
    else if v < 0x800 then [Byte(0xC0 + v / 64), Byte(0x80 + v % 64)]
    else if v < 0x10000 then [Byte(0xE0 + v / 4096), Byte(0x80 + v / 64 % 64), Byte(0x80 + v % 64)]
    else [Byte(0xF0 + v / 0x40000), Byte(0x80 + v / 4096 % 64), Byte(0x80 + v / 64 % 64), Byte(0x80 + v % 64)]
  }

  /** The six-bit groups of a number. */
  lemma Groups(v: nat)
    ensures v == v / 64 * 64 + v % 64
    ensures v == v / 4096 * 4096 + v / 64 % 64 * 64 + v % 64
    ensures v == v / 0x40000 * 0x40000 + v / 4096 % 64 * 4096 + v / 64 % 64 * 64 + v % 64
  {
    assert v / 4096 == v / 64 / 64 && v / 0x40000 == v / 64 / 64 / 64;
  }

  lemma Joined(a: nat, b: nat, c: nat, d: nat)
    requires b < 64 && c < 64 && d < 64
    ensures var v := a * 0x40000 + b * 4096 + c * 64 + d;
            && v / 0x40000 == a && v / 4096 % 64 == b && v / 64 % 64 == c && v % 64 == d
            && v / 4096 == a * 64 + b && v / 64 == a * 4096 + b * 64 + c
  {
    var v := a * 0x40000 + b * 4096 + c * 64 + d;
    assert v == (a * 4096 + b * 64 + c) * 64 + d;
    assert v / 64 == a * 4096 + b * 64 + c;
    assert v / 4096 == a * 64 + b;
  }

  lemma RuneOfScalar(v: int, rest: string)
    requires Scalar(v)
    ensures RuneSize(EncodeRune(v) + rest) == |EncodeRune(v)|
  {
    Groups(v);
    var e, b, c, d := EncodeRune(v), v / 4096 % 64, v / 64 % 64, v % 64;
    var s := e + rest;
    assert s[0] == e[0];
    if v < 0x80 {
    } else if v < 0x800 {
      assert s[1] == e[1];
    } else if v < 0x10000 {
      assert s[1] == e[1] && s[2] == e[2];
    } else {
      assert s[1] == e[1] && s[2] == e[2] && s[3] == e[3];
    }
  }

  /** What RuneSize accepts at the front of s is the encoding of a scalar value. */
  lemma ScalarOfRune(s: string) returns (v: int)
    requires RuneSize(s) > 0
    ensures Scalar(v) && EncodeRune(v) == s[..RuneSize(s)]
  {
    var a := s[0] as int;
    if a < 0x80 {
      v := a;
    } else if a < 0xE0 {
      v := TwoBytes(a - 0xC0, s[1] as int - 0x80);
    } else if a < 0xF0 {
      v := ThreeBytes(a - 0xE0, s[1] as int - 0x80, s[2] as int - 0x80);
    } else {
      v := FourBytes(a - 0xF0, s[1] as int - 0x80, s[2] as int - 0x80, s[3] as int - 0x80);
    }
  }

  lemma TwoBytes(a: nat, b: nat) returns (v: int)
    requires 2 <= a < 32 && b < 64
    ensures Scalar(v) && EncodeRune(v) == [Byte(0xC0 + a), Byte(0x80 + b)]
  {
    v := a * 64 + b;
    Joined(0, 0, a, b);
  }

  lemma ThreeBytes(a: nat, b: nat, c: nat) returns (v: int)
    requires a < 16 && b < 64 && c < 64 && (a == 0 ==> b >= 32) && (a == 13 ==> b < 32)
    ensures Scalar(v) && EncodeRune(v) == [Byte(0xE0 + a), Byte(0x80 + b), Byte(0x80 + c)]
  {
    v := a * 4096 + b * 64 + c;
    Joined(0, a, b, c);
  }

  lemma FourBytes(a: nat, b: nat, c: nat, d: nat) returns (v: int)
    requires a < 5 && b < 64 && c < 64 && d < 64 && (a == 0 ==> b >= 16) && (a == 4 ==> b < 16)
    ensures Scalar(v) && EncodeRune(v) == [Byte(0xF0 + a), Byte(0x80 + b), Byte(0x80 + c), Byte(0x80 + d)]
  {
    v := a * 0x40000 + b * 4096 + c * 64 + d;
    Joined(a, b, c, d);
  }

  /** The encodings of these scalar values, one after the other. */
  function EncodeRunes(vs: seq<int>): string
    requires forall v :: v in vs ==> Scalar(v)
  {
    if vs == [] then "" else
      assert Scalar(vs[0]);
      EncodeRune(vs[0]) + EncodeRunes(vs[1..])
  }

  /** Valid UTF-8 is exactly what encodes scalar values. */
  lemma {:induction false} ValidUtf8Iff(s: string)
    ensures ValidUtf8(s) <==> exists vs :: (forall v :: v in vs ==> Scalar(v)) && EncodeRunes(vs) == s
    decreases |s|
  {
    if ValidUtf8(s) {
      var vs := DecodeRunes(s);
    }
    if vs :| (forall v :: v in vs ==> Scalar(v)) && EncodeRunes(vs) == s {
      EncodedIsValid(vs);
    }
  }

  lemma {:induction false} DecodeRunes(s: string) returns (vs: seq<int>)
    requires ValidUtf8(s)
    ensures (forall v :: v in vs ==> Scalar(v)) && EncodeRunes(vs) == s
    decreases |s|
  {
    hide RuneSize, EncodeRune;
    if s == "" {
      vs := [];
    } else {
      var v := ScalarOfRune(s);
      var more := DecodeRunes(s[RuneSize(s)..]);
      vs := [v] + more;
      assert vs[1..] == more && s == s[..RuneSize(s)] + s[RuneSize(s)..];
    }
  }

  lemma {:induction false} EncodedIsValid(vs: seq<int>)
    requires forall v :: v in vs ==> Scalar(v)
    ensures ValidUtf8(EncodeRunes(vs))
  {
    if vs != [] {
      hide RuneSize, EncodeRune;
      var rest := EncodeRunes(vs[1..]);
      EncodedIsValid(vs[1..]);
      RuneOfScalar(vs[0], rest);
      EncodingNotEmpty(vs[0]);
      assert (EncodeRune(vs[0]) + rest)[|EncodeRune(vs[0])|..] == rest;
    }
  }

  lemma EncodingNotEmpty(v: int)
    requires Scalar(v)
    ensures EncodeRune(v) != ""
  {
  }

  predicate ValidUtf8(s: string) {
    s == "" || (RuneSize(s) > 0 && ValidUtf8(s[RuneSize(s)..]))
  }

  lemma {:induction false} ValidUtf8IsBytes(s: string)
    requires ValidUtf8(s)
    ensures IsBytes(s)
    decreases |s|
  {
    if s != "" {
      var n := RuneSize(s);
      ValidUtf8IsBytes(s[n..]);
      forall i | 0 <= i < |s| ensures s[i] as int < 0x100 {
        if i >= n { assert s[i] == s[n..][i - n]; }
      }
    }
  }

  /** ASCII text is valid UTF-8. */
  lemma {:induction false} AsciiIsValidUtf8(s: string)
    requires forall i :: 0 <= i < |s| ==> s[i] as int < 0x80
    ensures ValidUtf8(s)
  {
    if s != "" {
      AsciiIsValidUtf8(s[1..]);
    }
  }
}
