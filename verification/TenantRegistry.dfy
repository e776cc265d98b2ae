/** MultiTenantRegistry (internal/registry/multi_tenant.go); its lock makes each operation one step. */
module TenantRegistry {
  import opened Wrappers
  import opened Grpc
  import opened TenantLifecycle
  import TokenManagers

  /** jwtauth's KeyManager: it rotates keys in the background until Shutdown is called. */
  class KeyManager {
    const namespace: string
    var shutDown: bool

    constructor (namespace: string)
      ensures this.namespace == namespace && !shutDown
    {
      this.namespace, shutDown := namespace, false;
    }

    /** May report an error, which Remove only logs. */
    method Shutdown() returns (ok: bool)
      modifies this
      ensures shutDown
    {
      shutDown := true;
      ok := *;
    }
  }

  class Backfiller {
    constructor () {}
  }

  class TenantEntry {
    const manager: TokenManagers.TokenManager
    const km: KeyManager
    const backfiller: Backfiller
    var draining: bool

    constructor (manager: TokenManagers.TokenManager, km: KeyManager, backfiller: Backfiller)
      ensures this.manager == manager && this.km == km && this.backfiller == backfiller && !draining
    {
      this.manager, this.km, this.backfiller, draining := manager, km, backfiller, false;
    }
  }

  /** A stack the library was asked for, and whether it came up. */
  datatype Build = Build(tenantID: string, issuer: string, audience: string, ok: bool)

  /** jwtauth, as Add uses it: it builds and starts a tenant's stack, or fails on the way. */
  class Library {
    const journal: TokenManagers.Journal
    ghost var built: seq<Build>

    constructor (journal: TokenManagers.Journal)
      ensures this.journal == journal && built == []
    {
      this.journal, built := journal, [];
    }

    method BuildStack(tenantID: string, issuer: string, audience: string) returns (entry: Option<TenantEntry>)
      modifies this
      ensures built == old(built) + [Build(tenantID, issuer, audience, entry.Some?)]
      ensures entry.Some? ==>
                && fresh(entry.value) && fresh(entry.value.km) && !entry.value.draining && !entry.value.km.shutDown
                && entry.value.manager.tenant == tenantID && entry.value.km.namespace == tenantID
    {
      var works: bool := *;
      built := built + [Build(tenantID, issuer, audience, works)];
      if !works { return None; }
      var manager := new TokenManagers.TokenManager(tenantID, journal);
      var km := new KeyManager(tenantID);
      var backfiller := new Backfiller();
      var stack := new TenantEntry(manager, km, backfiller);
      entry := Some(stack);
    }
  }

  class MultiTenantRegistry {
    const library: Library
    var tenants: map<string, TenantEntry>
    var gauge: int             // active_tenants
    var ops: Ops               // registry_operations_total, by operation
    ghost var history: seq<Event>
    ghost var entries: set<TenantEntry>  // every entry and every key manager there ever was,
    ghost var kms: set<KeyManager>       // and the key managers of removed tenants
    ghost var retired: set<KeyManager>

    /** The registry is where book says. */
    ghost predicate Mirrors(book: Book)
      reads `tenants, `entries, entries
    {
      && tenants.Keys == book.Keys
      && (forall t :: t in tenants ==> tenants[t] in entries && (tenants[t].draining <==> book[t].Draining?))
    }

    /** The registry is where its history says, and the metrics agree. */
    ghost predicate Booked()
      reads this, entries
    {
      LegalHistory(history) && Mirrors(After(history)) && gauge == |tenants| && ops == Tally(history)
    }

    /** Every tenant has its own stack, whose key manager was not shut down; those of removed tenants were. */
    ghost predicate Isolated()
      reads `tenants, `entries, `kms, `retired, kms
    {
      && (forall t :: t in tenants ==>
            && tenants[t] in entries && tenants[t].km in kms && tenants[t].manager.tenant == t
            && |t| > 0 && tenants[t].km.namespace == t && !tenants[t].km.shutDown)
      && retired <= kms && (forall km :: km in retired ==> km.shutDown)
    }

    /** What is registered is in the book, as active or draining as the entry says. */
    lemma InBook(tenantID: string)
      requires Booked()
      ensures tenantID in tenants <==> tenantID in After(history)
      ensures tenantID in tenants ==>
                tenants[tenantID] in entries && (tenants[tenantID].draining <==> After(history)[tenantID].Draining?)
    {
      hide After, LegalHistory;
    }

    ghost predicate Valid()
      reads this, entries, kms
    {
      Booked() && Isolated()
    }

    constructor (library: Library)
      ensures Valid() && this.library == library && tenants == map[] && history == [] && retired == {}
      ensures entries == {} && kms == {}
    {
      this.library, tenants, gauge, ops := library, map[], 0, Ops(0, 0, 0);
      history, entries, kms, retired := [], {}, {}, {};
    }

    /** Books a successful operation. */
    ghost method Log(e: Event)
      requires LegalHistory(history) && Legal(After(history), e) && Mirrors(Apply(After(history), e))
      requires gauge == |tenants| && ops == Counted(Tally(history), e)
      modifies this`history
      ensures Booked() && history == old(history) + [e]
    {
      hide LegalHistory, After, Tally;
      Append(history, e);
      history := history + [e];
    }

    /**
      Builds and registers a tenant's stack. It fails if an argument is empty, the tenant known, or the
      library, asked only after that, does not build the stack, and changes nothing then; otherwise the
      tenant is registered, active, and every other entry stays as it is.
     */
    method Add(tenantID: string, issuer: string, audience: string) returns (r: Result<(), Code>)
      requires Valid()
      modifies this, library
      ensures Valid() && retired == old(retired) && fresh(entries - old(entries)) && fresh(kms - old(kms))
      ensures r == Failure(InvalidArgument) <==> tenantID == "" || issuer == "" || audience == ""
      ensures r == Failure(AlreadyExists) <==>
                tenantID != "" && issuer != "" && audience != "" && tenantID in old(tenants)
      ensures r in {Failure(InvalidArgument), Failure(AlreadyExists)} ==> library.built == old(library.built)
      ensures r !in {Failure(InvalidArgument), Failure(AlreadyExists)} ==>
                && library.built == old(library.built) + [Build(tenantID, issuer, audience, r.Success?)]
                && r in {Success(()), Failure(Unknown)}
      ensures r.Failure? ==> unchanged(this)
      ensures r.Success? ==>
                && history == old(history) + [Added(tenantID)] && tenantID !in old(tenants)
                && tenants.Keys == old(tenants).Keys + {tenantID} && fresh(tenants[tenantID])
                && (forall t :: t in old(tenants) ==> tenants[t] == old(tenants)[t])
                && gauge == |tenants| && ops == old(ops).(adds := old(ops).adds + 1)
    {
      hide Booked, Isolated;
      if tenantID == "" || issuer == "" || audience == "" { return Failure(InvalidArgument); }
      if tenantID in tenants { return Failure(AlreadyExists); }
      var stack := library.BuildStack(tenantID, issuer, audience);
      if stack.None? { return Failure(Unknown); }
      Register(tenantID, stack.value);
      r := Success(());
    }

    method Register(tenantID: string, entry: TenantEntry)
      requires Valid() && tenantID !in tenants && |tenantID| > 0
      requires entry.manager.tenant == tenantID && entry.km.namespace == tenantID
      requires !entry.draining && !entry.km.shutDown
      modifies this
      ensures Valid() && retired == old(retired) && entries == old(entries) + {entry} && kms == old(kms) + {entry.km}
      ensures tenants == old(tenants)[tenantID := entry] && history == old(history) + [Added(tenantID)]
      ensures gauge == |tenants| && ops == old(ops).(adds := old(ops).adds + 1)
    {
      hide LegalHistory, After, Tally, Apply, Mirrors, Isolated;
      InBook(tenantID);
      Put(tenantID, entry, After(history));
      gauge := |tenants|;
      ops := ops.(adds := ops.adds + 1);
      Log(Added(tenantID));
    }

    method Put(tenantID: string, entry: TenantEntry, ghost book: Book)
      requires Isolated() && Mirrors(book) && |tenantID| > 0
      requires entry.manager.tenant == tenantID && entry.km.namespace == tenantID
      requires !entry.draining && !entry.km.shutDown
      modifies `tenants, `entries, `kms
      ensures Isolated() && Mirrors(Apply(book, Added(tenantID))) && tenants == old(tenants)[tenantID := entry]
      ensures entries == old(entries) + {entry} && kms == old(kms) + {entry.km}
    {
      tenants, entries, kms := tenants[tenantID := entry], entries + {entry}, kms + {entry.km};
    }

    /** Takes a tenant out of Get's sight. */
    method Drain(tenantID: string) returns (r: Result<(), Code>)
      requires Valid()
      modifies this, entries
      ensures Valid() && retired == old(retired) && tenants == old(tenants) && entries == old(entries) && kms == old(kms)
      ensures r == if tenantID == "" then Failure(InvalidArgument)
                   else if tenantID !in tenants then Failure(NotFound) else Success(())
      ensures r.Failure? ==> unchanged(this) && unchanged(entries)
      ensures r.Success? ==>
                && history == old(history) + [Drained(tenantID)]
                && gauge == old(gauge) && ops == old(ops).(drains := old(ops).drains + 1)
    {
      if tenantID == "" { return Failure(InvalidArgument); }
      if tenantID !in tenants { return Failure(NotFound); }
      hide Booked, Isolated;
      StartDraining(tenantID);
      r := Success(());
    }

    method StartDraining(tenantID: string)
      requires Valid() && tenantID in tenants
      modifies this, entries
      ensures Valid() && retired == old(retired) && tenants == old(tenants) && entries == old(entries) && kms == old(kms)
      ensures history == old(history) + [Drained(tenantID)]
      ensures gauge == old(gauge) && ops == old(ops).(drains := old(ops).drains + 1)
    {
      hide LegalHistory, After, Tally, Apply, Mirrors, Isolated;
      InBook(tenantID);
      MarkDraining(tenantID, After(history));
      ops := ops.(drains := ops.drains + 1);
      Log(Drained(tenantID));
    }

    method MarkDraining(tenantID: string, ghost book: Book)
      requires Isolated() && Mirrors(book) && tenantID in tenants
      modifies tenants[tenantID]
      ensures Isolated() && Mirrors(Apply(book, Drained(tenantID)))
    {
      tenants[tenantID].draining := true;
    }

    /** Shuts a drained tenant's key manager down and forgets the tenant. */
    method Remove(tenantID: string) returns (r: Result<(), Code>)
      requires Valid()
      modifies this, kms
      ensures Valid() && entries == old(entries) && kms == old(kms)
      ensures r == if tenantID == "" then Failure(InvalidArgument)
                   else if tenantID !in old(tenants) then Failure(NotFound)
                   else if !old(tenants[tenantID].draining) then Failure(FailedPrecondition) else Success(())
      ensures r.Failure? ==> unchanged(this) && unchanged(kms)
      ensures r.Success? ==>
                && history == old(history) + [Removed(tenantID)] && tenants == old(tenants) - {tenantID}
                && retired == old(retired) + {old(tenants)[tenantID].km}
                && gauge == |tenants| && ops == old(ops).(removes := old(ops).removes + 1)
    {
      if tenantID == "" { return Failure(InvalidArgument); }
      if tenantID !in tenants { return Failure(NotFound); }
      if !tenants[tenantID].draining { return Failure(FailedPrecondition); }
      hide Booked, Isolated;
      Unregister(tenantID, tenants[tenantID].km);
      r := Success(());
    }

    method Unregister(tenantID: string, km: KeyManager)
      requires Valid() && tenantID in tenants && tenants[tenantID].draining && tenants[tenantID].km == km
      modifies this, km
      ensures Valid() && history == old(history) + [Removed(tenantID)] && entries == old(entries) && kms == old(kms)
      ensures tenants == old(tenants) - {tenantID} && retired == old(retired) + {km}
      ensures gauge == |tenants| && ops == old(ops).(removes := old(ops).removes + 1)
    {
      hide LegalHistory, After, Tally, Apply, Mirrors, Isolated;
      InBook(tenantID);
      ShutDownAndForget(tenantID, km, After(history));
      gauge := |tenants|;
      ops := ops.(removes := ops.removes + 1);
      Log(Removed(tenantID));
    }

    method ShutDownAndForget(tenantID: string, km: KeyManager, ghost book: Book)
      requires Isolated() && Mirrors(book) && tenantID in tenants && tenants[tenantID].km == km
      modifies `tenants, `retired, km
      ensures Isolated() && Mirrors(Apply(book, Removed(tenantID)))
      ensures tenants == old(tenants) - {tenantID} && retired == old(retired) + {km}
    {
      var _ := km.Shutdown();
      tenants, retired := tenants - {tenantID}, retired + {km};
    }

    /** The active-tenants gauge is the number of entries, and that is adds minus removes. */
    lemma GaugeBalances()
      requires Valid()
      ensures gauge == |tenants| == ops.adds - ops.removes
    {
      hide LegalHistory, After, Tally, Isolated;
      Population(history);
      assert |tenants.Keys| == |After(history).Keys|;
    }

    /** Succeeds exactly on tenants that were added last, with their own manager. */
    method Get(tenantID: string) returns (r: Result<TokenManagers.TokenManager, Code>)
      requires Valid()
      ensures r.Success? <==> LastAbout(history, tenantID) == Some(Added(tenantID)) && tenantID != ""
      ensures r.Success? ==> tenantID in tenants && r.value == tenants[tenantID].manager && r.value.tenant == tenantID
      ensures r.Failure? ==> r.error == if tenantID == "" then InvalidArgument else NotFound
    {
      StatusIsLastEvent(history, tenantID);
      if tenantID == "" { return Failure(InvalidArgument); }
      if tenantID !in tenants || tenants[tenantID].draining { return Failure(NotFound); }
      r := Success(tenants[tenantID].manager);
    }

    /** The key managers of all tenants, draining ones included; none was shut down by Remove. */
    method AllKeyManagers() returns (result: map<string, KeyManager>)
      requires Valid()
      ensures result.Keys == tenants.Keys && forall t :: t in result ==> result[t] == tenants[t].km
      ensures forall t :: t in result ==> !result[t].shutDown && result[t] !in retired
    {
      result := map[];
      var left := tenants.Keys;
      while left != {}
        invariant left <= tenants.Keys && result.Keys == tenants.Keys - left
        invariant forall t :: t in result ==> result[t] == tenants[t].km
        decreases left
      {
        var id :| id in left;
        result := result[id := tenants[id].km];
        left := left - {id};
      }
    }

    method AllBackfillers() returns (result: map<string, Backfiller>)
      ensures result.Keys == tenants.Keys && forall t :: t in result ==> result[t] == tenants[t].backfiller
    {
      result := map[];
      var left := tenants.Keys;
      while left != {}
        invariant left <= tenants.Keys && result.Keys == tenants.Keys - left
        invariant forall t :: t in result ==> result[t] == tenants[t].backfiller
        decreases left
      {
        var id :| id in left;
        result := result[id := tenants[id].backfiller];
        left := left - {id};
      }
    }

    /** The managers of exactly the tenants on which Get succeeds. */
    method GetAll() returns (result: map<string, TokenManagers.TokenManager>)
      requires Valid()
      ensures result.Keys <= tenants.Keys
      ensures forall t :: t in result <==> LastAbout(history, t) == Some(Added(t))
      ensures forall t :: t in result ==> t != "" && result[t] == tenants[t].manager
    {
      result := map[];
      var left := tenants.Keys;
      while left != {}
        invariant left <= tenants.Keys && result.Keys <= tenants.Keys - left
        invariant forall t :: t in tenants.Keys - left ==> (t in result <==> !tenants[t].draining)
        invariant forall t :: t in result ==> result[t] == tenants[t].manager
        decreases left
      {
        var id :| id in left;
        if !tenants[id].draining {
          result := result[id := tenants[id].manager];
        }
        left := left - {id};
      }
      forall t ensures t in result <==> LastAbout(history, t) == Some(Added(t)) {
        StatusIsLastEvent(history, t);
      }
    }
  }
}
