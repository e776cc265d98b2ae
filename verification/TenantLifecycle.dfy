/**
  The life of tenants as a history of the registry operations that succeeded: Add, Drain, Remove
  (internal/registry/multi_tenant.go).
 */
module TenantLifecycle {
  import opened Wrappers

  datatype Event = Added(tenant: string) | Drained(tenant: string) | Removed(tenant: string)

  datatype Status = Active | Draining

  type Book = map<string, Status>

  /** The operation would succeed: Add wants an unknown tenant, Remove a drained one, Drain any known one. */
  predicate Legal(b: Book, e: Event) {
    match e
    case Added(t) => t !in b
    case Drained(t) => t in b
    case Removed(t) => t in b && b[t].Draining?
  }

  function Apply(b: Book, e: Event): Book {
    match e
    case Added(t) => b[t := Active]
    case Drained(t) => b[t := Draining]
    case Removed(t) => b - {t}
  }

  /** The tenants registered at the end of a history. */
  function After(h: seq<Event>): Book {
    if h == [] then map[] else Apply(After(h[..|h| - 1]), h[|h| - 1])
  }

  ghost predicate LegalHistory(h: seq<Event>) {
    forall i :: 0 <= i < |h| ==> Legal(After(h[..i]), h[i])
  }

  lemma Append(h: seq<Event>, e: Event)
    requires LegalHistory(h) && Legal(After(h), e)
    ensures LegalHistory(h + [e]) && After(h + [e]) == Apply(After(h), e) && Tally(h + [e]) == Counted(Tally(h), e)
  {
    assert (h + [e])[..|h|] == h;
    forall i | 0 <= i < |h| + 1 ensures Legal(After((h + [e])[..i]), (h + [e])[i]) {
      assert i < |h| ==> (h + [e])[..i] == h[..i];
    }
  }

  lemma Before(h: seq<Event>)
    requires LegalHistory(h) && h != []
    ensures LegalHistory(h[..|h| - 1]) && Legal(After(h[..|h| - 1]), h[|h| - 1])
  {
    var g := h[..|h| - 1];
    forall i | 0 <= i < |g| ensures Legal(After(g[..i]), g[i]) {
      assert g[..i] == h[..i];
    }
  }

  // ----- what a history says about one tenant -----

  /** The last thing that happened to t. */
  function LastAbout(h: seq<Event>, t: string): Option<Event> {
    if h == [] then None
    else if h[|h| - 1].tenant == t then Some(h[|h| - 1])
    else LastAbout(h[..|h| - 1], t)
  }

  /** A tenant is active exactly when it was added last, draining when drained last, and otherwise unknown. */
  lemma {:induction false} StatusIsLastEvent(h: seq<Event>, t: string)
    requires LegalHistory(h)
    ensures t in After(h) && After(h)[t] == Active <==> LastAbout(h, t) == Some(Added(t))
    ensures t in After(h) && After(h)[t] == Draining <==> LastAbout(h, t) == Some(Drained(t))
    ensures t !in After(h) <==> LastAbout(h, t) in {None, Some(Removed(t))}
  {
    if h != [] {
      Before(h);
      StatusIsLastEvent(h[..|h| - 1], t);
    }
  }

  /** Once drained, a tenant is not active again until it was removed and then added again. */
  lemma {:induction false} DrainedUntilReadded(h: seq<Event>, i: nat, t: string) returns (k: nat, m: nat)
    requires LegalHistory(h) && i < |h| && h[i] == Drained(t)
    requires t in After(h) && After(h)[t] == Active
    ensures i < k < m < |h| && h[k] == Removed(t) && h[m] == Added(t)
  {
    hide LegalHistory, Apply;
    var g, e := h[..|h| - 1], h[|h| - 1];
    Before(h);
    LastStep(h, t);
    if e.tenant == t {
      m := |h| - 1;
      k := RemovedBeforeAdd(g, i, t);
    } else {
      k, m := DrainedUntilReadded(g, i, t);
    }
  }

  /** What the last event of a history does to t. */
  lemma LastStep(h: seq<Event>, t: string)
    requires h != []
    ensures var b, c, e := After(h[..|h| - 1]), After(h), h[|h| - 1];
            if e.tenant == t then
              (t in c <==> !e.Removed?) && (t in c ==> c[t] == if e.Added? then Active else Draining)
            else
              (t in c <==> t in b) && (t in c ==> c[t] == b[t])
  {
  }

  lemma {:induction false} RemovedBeforeAdd(h: seq<Event>, i: nat, t: string) returns (k: nat)
    requires LegalHistory(h) && i < |h| && h[i] == Drained(t) && t !in After(h)
    ensures i < k < |h| && h[k] == Removed(t)
  {
    hide LegalHistory, Apply;
    var g, e := h[..|h| - 1], h[|h| - 1];
    Before(h);
    LastStep(h, t);
    if e.tenant == t {
      k := |h| - 1;
    } else {
      k := RemovedBeforeAdd(g, i, t);
    }
  }

  // ----- counting -----

  /** How many operations of each kind succeeded. */
  datatype Ops = Ops(adds: nat, drains: nat, removes: nat)

  function Counted(n: Ops, e: Event): Ops {
    match e
    case Added(_) => n.(adds := n.adds + 1)
    case Drained(_) => n.(drains := n.drains + 1)
    case Removed(_) => n.(removes := n.removes + 1)
  }

  function Tally(h: seq<Event>): Ops {
    if h == [] then Ops(0, 0, 0) else Counted(Tally(h[..|h| - 1]), h[|h| - 1])
  }

  /** The number of registered tenants is adds minus removes. */
  lemma {:induction false} Population(h: seq<Event>)
    requires LegalHistory(h)
    ensures |After(h)| == Tally(h).adds - Tally(h).removes
  {
    if h != [] {
      var b := After(h[..|h| - 1]);
      Before(h);
      Population(h[..|h| - 1]);
      match h[|h| - 1] {
        case Drained(t) => assert b[t := Draining].Keys == b.Keys;
        case Removed(t) => assert (b - {t}).Keys == b.Keys - {t};
        case Added(t) => assert b[t := Active].Keys == b.Keys + {t};
      }
    }
  }
}
