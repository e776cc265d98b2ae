/**
  The static caller registry: validation of its config (cmd/token-engine/main.go), its construction
  and its lookup (internal/registry/caller.go).
 */
module CallerRegistry {
  import opened Wrappers
  import opened Grpc

  datatype CallerEntry = CallerEntry(identity: string, permittedTenants: seq<string>)

  datatype CallerRegistryConfig = CallerRegistryConfig(version: int, callers: seq<CallerEntry>)

  datatype ConfigError = BadVersion | EmptyIdentity | NoTenants(identity: string) | DuplicateIdentity(identity: string)

  // ----- validation -----

  predicate EntryOk(callers: seq<CallerEntry>, i: nat)
    requires i < |callers|
  {
    && callers[i].identity != "" && callers[i].permittedTenants != []
    && forall j :: 0 <= j < i ==> callers[j].identity != callers[i].identity
  }

  predicate ValidCallers(config: CallerRegistryConfig) {
    config.version == 1 && forall i :: 0 <= i < |config.callers| ==> EntryOk(config.callers, i)
  }

  /** Valid entries have an identity, a tenant, and no namesake. */
  lemma ValidEntries(config: CallerRegistryConfig)
    ensures ValidCallers(config) <==>
              && config.version == 1
              && (forall e :: e in config.callers ==> e.identity != "" && e.permittedTenants != [])
              && (forall i, j :: 0 <= i < j < |config.callers| ==> config.callers[i].identity != config.callers[j].identity)
  {
    if ValidCallers(config) {
      forall i, j | 0 <= i < j < |config.callers| ensures config.callers[i].identity != config.callers[j].identity {
        assert EntryOk(config.callers, j);
      }
      forall e | e in config.callers ensures e.identity != "" && e.permittedTenants != [] {
        var i :| 0 <= i < |config.callers| && config.callers[i] == e;
        assert EntryOk(config.callers, i);
      }
    }
  }

  /** Accepts exactly the valid configs; the error is that of the first entry that is wrong. */
  method ValidateCallers(config: CallerRegistryConfig) returns (error: Option<ConfigError>)
    ensures error.None? <==> ValidCallers(config)
    ensures error.None? <==>
              && config.version == 1
              && (forall e :: e in config.callers ==> e.identity != "" && e.permittedTenants != [])
              && (forall i, j :: 0 <= i < j < |config.callers| ==> config.callers[i].identity != config.callers[j].identity)
    ensures error == Some(BadVersion) <==> config.version != 1
    ensures error.Some? && error.value != BadVersion ==>
              exists i :: 0 <= i < |config.callers| && !EntryOk(config.callers, i)
                          && (forall j :: 0 <= j < i ==> EntryOk(config.callers, j))
                          && error.value == (if config.callers[i].identity == "" then EmptyIdentity
                                             else if config.callers[i].permittedTenants == [] then
                                               NoTenants(config.callers[i].identity)
                                             else DuplicateIdentity(config.callers[i].identity))
  {
    ValidEntries(config);
    if config.version != 1 { return Some(BadVersion); }
    var seen: map<string, bool> := map[];
    for i := 0 to |config.callers|
      invariant forall j :: 0 <= j < i ==> EntryOk(config.callers, j)
      invariant forall k :: k in seen ==> seen[k] && exists j :: 0 <= j < i && config.callers[j].identity == k
      invariant forall j :: 0 <= j < i ==> config.callers[j].identity in seen
    {
      var entry := config.callers[i];
      assert EntryOk(config.callers, i) <==>
             entry.identity != "" && entry.permittedTenants != [] && entry.identity !in seen;
      if entry.identity == "" { return Some(EmptyIdentity); }
      if entry.permittedTenants == [] { return Some(NoTenants(entry.identity)); }
      if entry.identity in seen && seen[entry.identity] { return Some(DuplicateIdentity(entry.identity)); }
      seen := seen[entry.identity := true];
    }
    error := None;
  }

  // ----- construction and lookup -----

  /** identity to permitted tenants, as a Go map of Go sets. */
  type Allowed = map<string, map<string, bool>>

  /** The last entry for an identity, by index. */
  function LastFor(callers: seq<CallerEntry>, identity: string): (r: Option<nat>)
    ensures r.None? ==> forall i :: 0 <= i < |callers| ==> callers[i].identity != identity
    ensures r.Some? ==>
              && r.value < |callers| && callers[r.value].identity == identity
              && forall i :: r.value < i < |callers| ==> callers[i].identity != identity
  {
    if callers == [] then None
    else if callers[|callers| - 1].identity == identity then Some(|callers| - 1)
    else LastFor(callers[..|callers| - 1], identity)
  }

  /** The table of a config: an identity has the tenants of its last entry. */
  ghost predicate TableOf(allowed: Allowed, callers: seq<CallerEntry>) {
    forall identity ::
      (identity in allowed <==> LastFor(callers, identity).Some?)
      && (identity in allowed ==>
            var last := callers[LastFor(callers, identity).value];
            forall t :: t in allowed[identity] && allowed[identity][t] <==> t in last.permittedTenants)
  }

  /** Adding an entry's table to that of the entries before it. */
  lemma TableGrows(allowed: Allowed, callers: seq<CallerEntry>, entry: CallerEntry, tenantSet: map<string, bool>)
    requires TableOf(allowed, callers)
    requires forall t :: t in tenantSet && tenantSet[t] <==> t in entry.permittedTenants
    ensures TableOf(allowed[entry.identity := tenantSet], callers + [entry])
  {
    assert (callers + [entry])[..|callers|] == callers;
  }

  method NewStaticCallerRegistry(callers: seq<CallerEntry>) returns (allowed: Allowed)
    ensures TableOf(allowed, callers)
  {
    allowed := map[];
    for i := 0 to |callers|
      invariant TableOf(allowed, callers[..i])
    {
      var entry := callers[i];
      var tenantSet: map<string, bool> := map[];
      for j := 0 to |entry.permittedTenants|
        invariant forall t :: t in tenantSet && tenantSet[t] <==> t in entry.permittedTenants[..j]
      {
        tenantSet := tenantSet[entry.permittedTenants[j] := true];
      }
      assert entry.permittedTenants[..|entry.permittedTenants|] == entry.permittedTenants;
      TableGrows(allowed, callers[..i], entry, tenantSet);
      assert callers[..i + 1] == callers[..i] + [entry];
      allowed := allowed[entry.identity := tenantSet];
    }
    assert callers[..|callers|] == callers;
  }

  /** IsPermitted, where no error is None. Empty tenants are left to the validation interceptor. */
  function IsPermitted(allowed: Allowed, identity: string, tenantID: string): Option<Code> {
    if tenantID == "" then None
    else if identity !in allowed then Some(PermissionDenied)
    else if tenantID !in allowed[identity] || !allowed[identity][tenantID] then Some(PermissionDenied)
    else None
  }

  /** Some entry of the config lists the tenant for the identity. */
  predicate Listed(callers: seq<CallerEntry>, identity: string, tenantID: string) {
    exists i :: 0 <= i < |callers| && callers[i].identity == identity && tenantID in callers[i].permittedTenants
  }

  /** In any config: permitted exactly when the last entry for the identity lists the tenant. */
  lemma PermittedIffLastLists(allowed: Allowed, callers: seq<CallerEntry>, identity: string, tenantID: string)
    requires TableOf(allowed, callers) && tenantID != ""
    ensures IsPermitted(allowed, identity, tenantID).None? <==>
              LastFor(callers, identity).Some? && tenantID in callers[LastFor(callers, identity).value].permittedTenants
  {
  }

  /** In a validated config: permitted exactly when listed. */
  lemma PermittedIffListed(allowed: Allowed, config: CallerRegistryConfig, identity: string, tenantID: string)
    requires ValidCallers(config) && TableOf(allowed, config.callers) && tenantID != ""
    ensures IsPermitted(allowed, identity, tenantID).None? <==> Listed(config.callers, identity, tenantID)
  {
    PermittedIffLastLists(allowed, config.callers, identity, tenantID);
    var last := LastFor(config.callers, identity);
    if Listed(config.callers, identity, tenantID) {
      var i :| 0 <= i < |config.callers| && config.callers[i].identity == identity
               && tenantID in config.callers[i].permittedTenants;
      assert EntryOk(config.callers, last.value);
    }
  }

  /** Every listed tenant is permitted. */
  ghost predicate ListedSuffices(allowed: Allowed, callers: seq<CallerEntry>) {
    forall identity, tenantID :: tenantID != "" && Listed(callers, identity, tenantID) ==>
      IsPermitted(allowed, identity, tenantID).None?
  }

  /** An identity's last entry lists whatever its entry i lists. */
  ghost predicate Kept(callers: seq<CallerEntry>, i: nat)
    requires i < |callers|
  {
    forall t :: t in callers[i].permittedTenants && t != "" ==>
      t in callers[LastFor(callers, callers[i].identity).value].permittedTenants
  }

  /**
    Without the check for duplicates the listed tenants are permitted exactly when no identity's last
    entry drops a tenant that an earlier one lists.
   */
  lemma ListedSufficesIff(allowed: Allowed, callers: seq<CallerEntry>)
    requires TableOf(allowed, callers)
    ensures ListedSuffices(allowed, callers) <==> forall i :: 0 <= i < |callers| ==> Kept(callers, i)
  {
    if ListedSuffices(allowed, callers) {
      hide IsPermitted, TableOf;
      forall i | 0 <= i < |callers| ensures Kept(callers, i) {
        forall t | t in callers[i].permittedTenants && t != ""
          ensures t in callers[LastFor(callers, callers[i].identity).value].permittedTenants
        {
          assert Listed(callers, callers[i].identity, t);
          PermittedIffLastLists(allowed, callers, callers[i].identity, t);
        }
      }
    } else {
      hide IsPermitted, TableOf;
      var identity, tenantID :| tenantID != "" && Listed(callers, identity, tenantID)
                                && !IsPermitted(allowed, identity, tenantID).None?;
      PermittedIffLastLists(allowed, callers, identity, tenantID);
      var i :| 0 <= i < |callers| && callers[i].identity == identity && tenantID in callers[i].permittedTenants;
      assert !Kept(callers, i);
    }
  }
}
