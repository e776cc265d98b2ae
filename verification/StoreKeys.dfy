/**
  The keys this service writes to the shared Redis: idempotency records
  (internal/interceptor/idempotency.go), the two lock families and the rotation stamp
  (cmd/token-engine/main.go, internal/reconciliation/cursor_reconciler.go).
 */
module StoreKeys {
  import opened Wrappers
  import opened ByteStrings
  import opened RequestFingerprint

  const IDEMPOTENCY_PREFIX: string := "idempotency:"
  const ROTATION_LOCK_PREFIX: string := "locks:key_rotation:"
  const RECONCILIATION_LOCK_PREFIX: string := "locks:reconciliation:"
  const ROTATION_STAMP_PREFIX: string := "key_rotation:last_generated:"

  function RpcName(m: Rpc): (s: string)
    ensures s != "" && ':' !in s
    ensures |s| == if m.IssueToken? then 10 else 12
  {
    if m.IssueToken? then "IssueToken" else "RefreshToken"
  }

  /** idempotency:{tenant}:{rpc}:{client key} */
  function IdempotencyKey(tenant: string, m: Rpc, clientKey: string): string {
    IDEMPOTENCY_PREFIX + (tenant + (":" + (RpcName(m) + (":" + clientKey))))
  }

  function RotationLockKey(tenant: string): string { ROTATION_LOCK_PREFIX + tenant }

  function ReconciliationLockKey(tenant: string): string { RECONCILIATION_LOCK_PREFIX + tenant }

  function RotationStampKey(tenant: string): string { ROTATION_STAMP_PREFIX + tenant }

  /** The keys as they are written to Redis. */
  lemma KeyTexts(tenant: string, m: Rpc, clientKey: string)
    ensures IdempotencyKey(tenant, m, clientKey)
         == "idempotency:" + tenant + ":" + (if m == IssueToken then "IssueToken" else "RefreshToken") + ":" + clientKey
    ensures RotationLockKey(tenant) == "locks:key_rotation:" + tenant
    ensures ReconciliationLockKey(tenant) == "locks:reconciliation:" + tenant
    ensures RotationStampKey(tenant) == "key_rotation:last_generated:" + tenant
  {
    var n := RpcName(m);
    Associate(":", n, ":" + clientKey);
    Associate(IDEMPOTENCY_PREFIX + tenant + ":" + n, ":", clientKey);
    assert IdempotencyKey(tenant, m, clientKey) == IDEMPOTENCY_PREFIX + tenant + (":" + n) + (":" + clientKey);
    assert IDEMPOTENCY_PREFIX + tenant + (":" + n) == IDEMPOTENCY_PREFIX + tenant + ":" + n;
  }

  lemma SamePrefix(s: string, x: string, t: string, y: string)
    requires s + x == t + y && |s| == |t|
    ensures s == t && x == y
  {
    assert s == (s + x)[..|s|] && t == (t + y)[..|s|];
    assert x == (s + x)[|s|..] && y == (t + y)[|s|..];
  }

  /** The separator that ends the shorter field lies inside the longer one. */
  lemma SeparatorInside(s: string, x: string, t: string, y: string)
    requires s + (":" + x) == t + y && |s| < |t|
    ensures t[|s|] == ':'
  {
    assert (s + (":" + x))[|s|] == ':' && (t + y)[|s|] == t[|s|];
  }

  /** A field without the separator ends at the first separator. */
  lemma FieldEnds(s: string, x: string, t: string, y: string)
    requires ':' !in s && ':' !in t
    requires s + (":" + x) == t + (":" + y)
    ensures s == t && x == y
  {
    if |s| < |t| {
      SeparatorInside(s, x, t, ":" + y);
      assert false;
    } else if |t| < |s| {
      SeparatorInside(t, y, s, ":" + x);
      assert false;
    } else {
      SamePrefix(s, ":" + x, t, ":" + y);
      CancelPrefix(":", x, y);
    }
  }

  /** For tenants free of ':', tenant, RPC and client key can all be read off the key. */
  lemma IdempotencyKeyInjective(t1: string, m1: Rpc, c1: string, t2: string, m2: Rpc, c2: string)
    requires ':' !in t1 && ':' !in t2
    requires IdempotencyKey(t1, m1, c1) == IdempotencyKey(t2, m2, c2)
    ensures t1 == t2 && m1 == m2 && c1 == c2
  {
    var x1, x2 := RpcName(m1) + (":" + c1), RpcName(m2) + (":" + c2);
    CancelPrefix(IDEMPOTENCY_PREFIX, t1 + (":" + x1), t2 + (":" + x2));
    FieldEnds(t1, x1, t2, x2);
    FieldEnds(RpcName(m1), c1, RpcName(m2), c2);
  }

  /** t2 continues t1 with an RPC name as a whole ':'-separated field. */
  ghost predicate Shadows(t1: string, t2: string) {
    exists m: Rpc :: ShadowsBy(t1, m, t2)
  }

  predicate ShadowsBy(t1: string, m: Rpc, t2: string) {
    var p := t1 + (":" + RpcName(m));
    p <= t2 && (p == t2 || t2[|p|] == ':')
  }

  /** Two tenants share some record key, with client keys that reach the store: those are never empty. */
  ghost predicate Collide(t1: string, t2: string) {
    exists m1: Rpc, c1: string, m2: Rpc, c2: string ::
      c1 != "" && c2 != "" && IdempotencyKey(t1, m1, c1) == IdempotencyKey(t2, m2, c2)
  }

  lemma Associate(a: string, b: string, c: string)
    ensures (a + b) + c == a + (b + c)
  {
  }

  lemma ShadowCollides(t1: string, m: Rpc, t2: string)
    requires ShadowsBy(t1, m, t2)
    ensures Collide(t1, t2)
  {
    var n := RpcName(m);
    var p := t1 + (":" + n);
    var more := t2[|p|..];
    var tail := ":" + (n + (":" + "x"));
    var c1 := (more + tail)[1..];
    assert more + tail == ":" + c1;
    assert t2 == p + more;
    Associate(p, more, tail);
    Associate(t1, ":" + n, ":" + c1);
    Associate(":", n, ":" + c1);
    assert t2 + tail == t1 + (":" + (n + (":" + c1)));
    assert c1 != "" && IdempotencyKey(t1, m, c1) == IdempotencyKey(t2, m, "x");
  }

  lemma CollisionShadows(t1: string, m1: Rpc, c1: string, t2: string, m2: Rpc, c2: string)
    requires |t1| < |t2| && IdempotencyKey(t1, m1, c1) == IdempotencyKey(t2, m2, c2)
    ensures Shadows(t1, t2)
  {
    var n1 := RpcName(m1);
    var p := t1 + (":" + n1);
    var y1, y2 := ":" + c1, RpcName(m2) + (":" + c2);
    CancelPrefix(IDEMPOTENCY_PREFIX, t1 + (":" + (n1 + y1)), t2 + (":" + y2));
    Associate(t1, ":" + n1, y1);
    Associate(":", n1, y1);
    assert p + y1 == t2 + (":" + y2);
    if |t2| < |p| {
      assert p[|t2|] == n1[|t2| - |t1| - 1];
      SeparatorInside(t2, y2, p, y1);
      assert false;
    } else {
      assert p == (p + y1)[..|p|] && p == t2[..|p|];
      if |t2| > |p| {
        SeparatorInside(p, c1, t2, ":" + y2);
      }
      assert ShadowsBy(t1, m1, t2);
    }
  }

  /** Exactly which pairs of distinct tenants can share a record, with no assumption on the names. */
  lemma TenantsCollideIff(t1: string, t2: string)
    requires t1 != t2
    ensures Collide(t1, t2) <==> Shadows(t1, t2) || Shadows(t2, t1)
  {
    if Collide(t1, t2) {
      var m1: Rpc, c1: string, m2: Rpc, c2: string :|
        c1 != "" && c2 != "" && IdempotencyKey(t1, m1, c1) == IdempotencyKey(t2, m2, c2);
      if |t1| < |t2| {
        CollisionShadows(t1, m1, c1, t2, m2, c2);
      } else if |t2| < |t1| {
        CollisionShadows(t2, m2, c2, t1, m1, c1);
      } else {
        var x1, x2 := ":" + (RpcName(m1) + (":" + c1)), ":" + (RpcName(m2) + (":" + c2));
        CancelPrefix(IDEMPOTENCY_PREFIX, t1 + x1, t2 + x2);
        SamePrefix(t1, x1, t2, x2);
        assert false;
      }
    }
    if Shadows(t1, t2) {
      var m: Rpc :| ShadowsBy(t1, m, t2);
      ShadowCollides(t1, m, t2);
    }
    if Shadows(t2, t1) {
      var m: Rpc :| ShadowsBy(t2, m, t1);
      ShadowCollides(t2, m, t1);
      var m1: Rpc, c1: string, m2: Rpc, c2: string :|
        c1 != "" && c2 != "" && IdempotencyKey(t2, m1, c1) == IdempotencyKey(t1, m2, c2);
      assert IdempotencyKey(t1, m2, c2) == IdempotencyKey(t2, m1, c1);
    }
  }

  /** The four families never meet, and the last three name their tenant, whatever the names are. */
  lemma FamiliesDisjoint(t: string, m: Rpc, c: string, u: string)
    ensures IdempotencyKey(t, m, c) !in {RotationLockKey(u), ReconciliationLockKey(u), RotationStampKey(u)}
    ensures RotationLockKey(t) !in {ReconciliationLockKey(u), RotationStampKey(u)}
    ensures ReconciliationLockKey(t) != RotationStampKey(u)
    ensures RotationLockKey(t) == RotationLockKey(u) ==> t == u
    ensures ReconciliationLockKey(t) == ReconciliationLockKey(u) ==> t == u
    ensures RotationStampKey(t) == RotationStampKey(u) ==> t == u
  {
    assert IdempotencyKey(t, m, c)[0] == 'i';
    assert RotationLockKey(t)[6] == 'k' && ReconciliationLockKey(u)[6] == 'r';
    assert RotationLockKey(u)[0] == 'l' && ReconciliationLockKey(u)[0] == 'l' && ReconciliationLockKey(t)[0] == 'l';
    assert RotationStampKey(u)[0] == 'k' && RotationLockKey(t)[0] == 'l';
    if RotationLockKey(t) == RotationLockKey(u) { CancelPrefix(ROTATION_LOCK_PREFIX, t, u); }
    if ReconciliationLockKey(t) == ReconciliationLockKey(u) { CancelPrefix(RECONCILIATION_LOCK_PREFIX, t, u); }
    if RotationStampKey(t) == RotationStampKey(u) { CancelPrefix(ROTATION_STAMP_PREFIX, t, u); }
  }

  // ----- the client key -----

  /**
    resolveIdempotencyKey: the header and the deprecated request field must agree when both are
    set; "" means the request is not keyed.
   */
  function ResolveClientKey(headerKey: string, fieldKey: string): (r: Option<string>)
    ensures r.None? <==> headerKey != "" && fieldKey != "" && headerKey != fieldKey
    ensures r.Some? ==> (headerKey != "" ==> r.value == headerKey) && (fieldKey != "" ==> r.value == fieldKey)
    ensures r == Some("") <==> headerKey == "" && fieldKey == ""
  {
    if headerKey == "" then Some(fieldKey)
    else if fieldKey == "" || headerKey == fieldKey then Some(headerKey)
    else None
  }
}
