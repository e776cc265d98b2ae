/** Redaction of library log fields by copy-on-write (internal/observability/redact.go). */
module Redaction {

  /** An element of a Go []interface{}: a string, a context.Context, or anything else. */
  datatype Value = Str(s: string) | Context(id: nat) | Other(id: nat)

  const REDACTED: Value := Str("[REDACTED]")
  const BACKGROUND: Value := Context(0)   // context.Background()

  predicate IsRedactedKey(key: string) {
    key in {"token", "key", "cursor", "next_cursor"}
  }

  predicate Secret(v: Value) {
    v.Str? && IsRedactedKey(v.s)
  }

  /** A Go slice: the elements from lo of the array under it. */
  datatype Slice = Slice(under: array<Value>, lo: nat)
  {
    ghost predicate Valid() {
      lo <= under.Length
    }

    ghost function Elements(): seq<Value>
      reads under
      requires Valid()
    {
      under[lo..]
    }
  }

  // ----- what redaction means -----

  /** Pairs from the front; a trailing key stays as it is. */
  function Redacted(kv: seq<Value>): seq<Value> {
    if |kv| < 2 then kv
    else [kv[0], if Secret(kv[0]) then REDACTED else kv[1]] + Redacted(kv[2..])
  }

  /** Slot j is the value of a deny-listed key. */
  predicate IsSecretSlot(kv: seq<Value>, j: nat)
    requires j < |kv|
  {
    j % 2 == 1 && Secret(kv[j - 1])
  }

  /** A deny-listed key has a value after it. */
  ghost predicate Matches(kv: seq<Value>) {
    exists j :: 0 <= j < |kv| && IsSecretSlot(kv, j)
  }

  /** Slot by slot: the values of deny-listed keys at even indices are replaced, everything else stays. */
  lemma {:induction false} RedactedAt(kv: seq<Value>, j: nat)
    requires j < |kv|
    ensures |Redacted(kv)| == |kv|
    ensures Redacted(kv)[j] == if IsSecretSlot(kv, j) then REDACTED else kv[j]
    ensures Redacted(kv)[j]
         == if j % 2 == 1 && kv[j - 1] in {Str("token"), Str("key"), Str("cursor"), Str("next_cursor")}
            then Str("[REDACTED]") else kv[j]
  {
    if |kv| >= 2 {
      if |kv| > 2 {
        RedactedAt(kv[2..], if j >= 2 then j - 2 else 0);
      }
    }
  }

  lemma {:induction false} SameLength(kv: seq<Value>)
    ensures |Redacted(kv)| == |kv|
  {
    if kv != [] {
      RedactedAt(kv, 0);
    }
  }

  /** Redacting twice is redacting once. */
  lemma {:induction false} Idempotent(kv: seq<Value>)
    ensures Redacted(Redacted(kv)) == Redacted(kv)
  {
    if |kv| >= 2 {
      Idempotent(kv[2..]);
      var head := [kv[0], if Secret(kv[0]) then REDACTED else kv[1]];
      assert (head + Redacted(kv[2..]))[2..] == Redacted(kv[2..]);
    }
  }

  /** A deny-listed key's value is gone for good: whatever it was, the result is the same. */
  lemma {:induction false} SecretsDoNotShow(a: seq<Value>, b: seq<Value>)
    requires |a| == |b|
    requires forall j :: 0 <= j < |a| ==> a[j] == b[j] || IsSecretSlot(a, j)
    ensures Redacted(a) == Redacted(b)
  {
    if |a| < 2 {
      assert |a| == 1 ==> !IsSecretSlot(a, 0);
      assert a == b;
    } else {
      assert !IsSecretSlot(a, 0);
      assert IsSecretSlot(a, 1) || a[1] == b[1];
      forall j | 0 <= j < |a| - 2 ensures a[2..][j] == b[2..][j] || IsSecretSlot(a[2..], j) {
        assert a[j + 2] == b[j + 2] || IsSecretSlot(a, j + 2);
      }
      SecretsDoNotShow(a[2..], b[2..]);
    }
  }

  // ----- the code -----

  /** Takes off a leading context; what remains is a reslice of the caller's array. */
  method SplitLeadingContext(kv: Slice) returns (ctx: Value, rest: Slice)
    requires kv.Valid()
    ensures rest.Valid() && rest.under == kv.under && ctx.Context?
    ensures kv.Elements() == (if rest == kv then [] else [ctx]) + rest.Elements()
    ensures rest != kv <==> kv.Elements() != [] && kv.Elements()[0].Context?
    ensures rest == kv ==> ctx == BACKGROUND
  {
    if kv.under.Length - kv.lo > 0 {
      var first := kv.under[kv.lo];
      if first.Context? {
        return first, Slice(kv.under, kv.lo + 1);
      }
    }
    return BACKGROUND, kv;
  }

  /** What the loop has done up to index i: out is kv with the first pairs redacted. */
  ghost predicate RedactedTo(kv: seq<Value>, out: seq<Value>, i: nat) {
    && |out| == |kv|
    && forall j :: 0 <= j < |kv| ==>
         out[j] == if j < i && IsSecretSlot(kv, j) then REDACTED else kv[j]
  }

  /**
    Returns the redacted fields: the caller's own slice exactly when there is nothing to redact, and a
    new one otherwise. No array of the caller's changes.
   */
  method RedactKeysAndValues(kv: Slice) returns (out: Slice)
    requires kv.Valid()
    ensures out.Valid() && out.Elements() == Redacted(kv.Elements())
    ensures out == kv <==> !Matches(kv.Elements())
    ensures out != kv ==> fresh(out.under)
  {
    hide Redacted, RedactedTo, IsRedactedKey, IsSecretSlot;
    ghost var was := kv.Elements();
    var n := kv.under.Length - kv.lo;
    out := kv;
    var copied := false;
    var i := 0;
    NothingYet(was);
    while i + 1 < n
      invariant 0 <= i <= n && i % 2 == 0 && kv.Elements() == was
      invariant out.Valid() && RedactedTo(was, out.Elements(), i)
      invariant copied <==> exists j :: 0 <= j < i && IsSecretSlot(was, j)
      invariant if copied then fresh(out.under) && out.lo == 0 else out == kv
    {
      var key := kv.under[kv.lo + i];
      OnePair(was, out.Elements(), i);
      if key.Str? && IsRedactedKey(key.s) {
        if !copied {
          out := Copy(kv, n);
          copied := true;
        }
        out.under[i + 1] := REDACTED;
      }
      i := i + 2;
    }
    ReachesRedacted(was, out.Elements(), i);
  }

  /** make and copy */
  method Copy(kv: Slice, n: nat) returns (c: Slice)
    requires kv.Valid() && n == |kv.Elements()|
    ensures fresh(c.under) && c.lo == 0 && c.Elements() == kv.Elements()
  {
    var a := new Value[n];
    for j := 0 to n
      invariant forall k :: 0 <= k < j ==> a[k] == kv.under[kv.lo + k]
      invariant kv.Elements() == old(kv.Elements())
    {
      a[j] := kv.under[kv.lo + j];
    }
    c := Slice(a, 0);
  }

  lemma NothingYet(kv: seq<Value>)
    ensures RedactedTo(kv, kv, 0)
  {
  }

  lemma OnePair(kv: seq<Value>, out: seq<Value>, i: nat)
    requires RedactedTo(kv, out, i) && i + 1 < |kv| && i % 2 == 0
    ensures !IsSecretSlot(kv, i) && (IsSecretSlot(kv, i + 1) <==> kv[i].Str? && IsRedactedKey(kv[i].s))
    ensures |out| == |kv|
    ensures RedactedTo(kv, if IsSecretSlot(kv, i + 1) then out[i + 1 := REDACTED] else out, i + 2)
  {
  }

  lemma ReachesRedacted(kv: seq<Value>, out: seq<Value>, i: nat)
    requires RedactedTo(kv, out, i) && i <= |kv| <= i + 1 && i % 2 == 0
    ensures out == Redacted(kv)
    ensures Matches(kv) <==> exists j :: 0 <= j < i && IsSecretSlot(kv, j)
  {
    hide Redacted, Secret;
    SameLength(kv);
    assert i < |kv| ==> !IsSecretSlot(kv, i);
    forall j | 0 <= j < |kv| ensures out[j] == Redacted(kv)[j] {
      RedactedAt(kv, j);
    }
  }
}
