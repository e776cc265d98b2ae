/**
  The reconciler (internal/reconciliation/cursor_reconciler.go), the ticker loop that runs it
  (cmd/token-engine/main.go) and the health check on it (internal/health/health.go).
 */
module Reconciliation {
  import opened Wrappers
  import opened RedisStore
  import opened CallLog
  import opened TtlLock
  import ByteStrings
  import StoreKeys

  // ----- what a pass does -----

  /**
    What has happened up to a moment: the run of the locks, which locks this replica took and how they
    stand, what this replica asked of the outside, and what each tenant's cleanups came back with.
   */
  datatype History = History(
    now: int,
    trace: seq<LockState>,
    steps: seq<LockStep>,
    own: set<string>,
    handles: map<string, Handle>,
    calls: seq<Call>,
    runs: map<string, seq<bool>>,
    lockTTL: int)

  /** The visit of one tenant: the calls it is made of and the place of its Acquire among the lock steps. */
  datatype Visit = Visit(tenant: string, calls: seq<Call>, from: nat)
  {
    function Key(): string { StoreKeys.ReconciliationLockKey(tenant) }

    /** The token of the lock, if it was got. */
    function Token(): set<string> {
      if calls != [] && calls[0].Tried? && calls[0].got.Some? then {calls[0].got.value} else {}
    }

    /** What the cleanup came back with, if there was one. */
    function Outcome(): seq<bool> {
      if |calls| > 1 && calls[1].CleanedUp? then [calls[1].ok] else []
    }
  }

  /** The lock is tried once, for the configured time, and exactly if it is got: clean up, end, give back. */
  ghost predicate IsVisit(v: Visit, p: History) {
    && v.from < |p.steps| < |p.trace|
    && (p.steps[v.from].Acquire? || p.steps[v.from].AcquireError?)
    && p.steps[v.from].key == v.Key() && p.steps[v.from].ttl == p.lockTTL
    && (|| v.calls == [Tried(v.Key(), None)]
        || (|v.calls| == 4 && v.calls[0].Tried? && v.calls[0].got.Some? && v.calls[1].CleanedUp?
            && var token := v.calls[0].got.value;
            && v.calls == LockedCalls(v.tenant, token, v.calls[1].ok)
            && GivenBack(v, p, token)))
  }

  /** The lock was got by that Acquire, its work ended and then it was released. */
  ghost predicate GivenBack(v: Visit, p: History, token: string)
    requires v.from < |p.steps|
  {
    && p.steps[v.from].Acquire? && p.steps[v.from].token == token && token in p.own && token in p.handles
    && p.handles[token].key == v.Key() && p.handles[token].released && !p.handles[token].working
    && exists i, j :: v.from < i < j < |p.steps| && p.steps[i] == EndWork(token)
                      && p.steps[j].Release? && p.steps[j].token == token
  }

  /** Before each visit the context is asked, and says that it is not done. */
  function CallsOf(visits: seq<Visit>): seq<Call> {
    if visits == [] then [] else CallsOf(visits[..|visits| - 1]) + [Polled(false)] + visits[|visits| - 1].calls
  }

  function TokensOf(visits: seq<Visit>): set<string> {
    if visits == [] then {} else TokensOf(visits[..|visits| - 1]) + visits[|visits| - 1].Token()
  }

  function TenantsOf(visits: seq<Visit>): multiset<string> {
    if visits == [] then multiset{} else TenantsOf(visits[..|visits| - 1]) + multiset{visits[|visits| - 1].tenant}
  }

  function OutcomesOf(visits: seq<Visit>, tenant: string): seq<bool> {
    if visits == [] then []
    else
      var v := visits[|visits| - 1];
      OutcomesOf(visits[..|visits| - 1], tenant) + if v.tenant == tenant then v.Outcome() else []
  }

  lemma Nothing(tenant: string)
    ensures CallsOf([]) == [] && TokensOf([]) == {} && TenantsOf([]) == multiset{} && OutcomesOf([], tenant) == []
  {
  }

  lemma Snoc(a: seq<Visit>, v: Visit, tenant: string)
    ensures CallsOf(a + [v]) == CallsOf(a) + [Polled(false)] + v.calls && TokensOf(a + [v]) == TokensOf(a) + v.Token()
    ensures TenantsOf(a + [v]) == TenantsOf(a) + multiset{v.tenant}
    ensures OutcomesOf(a + [v], tenant) == OutcomesOf(a, tenant) + if v.tenant == tenant then v.Outcome() else []
  {
    assert (a + [v])[..|a|] == a;
  }

  lemma {:induction false} Concat(a: seq<Visit>, b: seq<Visit>, tenant: string)
    ensures CallsOf(a + b) == CallsOf(a) + CallsOf(b) && TokensOf(a + b) == TokensOf(a) + TokensOf(b)
    ensures TenantsOf(a + b) == TenantsOf(a) + TenantsOf(b)
    ensures OutcomesOf(a + b, tenant) == OutcomesOf(a, tenant) + OutcomesOf(b, tenant)
  {
    hide CallsOf, TokensOf, TenantsOf, OutcomesOf;
    if b == [] {
      assert a + b == a;
      Nothing(tenant);
    } else {
      var c, v := b[..|b| - 1], b[|b| - 1];
      Concat(a, c, tenant);
      Snoc(c, v, tenant);
      Snoc(a + c, v, tenant);
      assert c + [v] == b && (a + c) + [v] == a + b;
    }
  }

  /** From p to q nothing of the past is lost, and a lock this replica had before stays as it was. */
  ghost predicate Later(p: History, q: History) {
    && p.now <= q.now && p.trace <= q.trace && p.steps <= q.steps && p.calls <= q.calls && p.lockTTL == q.lockTTL
    && |p.trace| == |p.steps| + 1 && |q.trace| == |q.steps| + 1
    && p.own <= q.own && p.own <= p.handles.Keys && q.own <= q.handles.Keys
    && (forall t :: t in p.own ==> q.handles[t] == p.handles[t])
  }

  /**
    From p to q this replica made exactly this visit: it took no other lock, gave back what it took,
    asked nothing else of the outside, and cleaned up just where the visit says so.
   */
  ghost predicate Made(p: History, q: History, v: Visit) {
    && Later(p, q) && q.calls == p.calls + v.calls
    && q.own == p.own + v.Token() && p.own !! v.Token()
    && q.runs.Keys == p.runs.Keys
    && (forall t :: t in p.runs ==> q.runs[t] == p.runs[t] + if t == v.tenant then v.Outcome() else [])
    && IsVisit(v, q) && |p.steps| <= v.from && p.now <= q.trace[v.from].now <= q.now
  }

  /**
    From p to q this replica made exactly these visits, one after the other, asking the context before
    each; and if it stopped, the context was asked once more and said that it was done.
   */
  ghost predicate Visited(p: History, q: History, visits: seq<Visit>, stopped: bool) {
    && Later(p, q)
    && q.calls == p.calls + CallsOf(visits) + (if stopped then [Polled(true)] else [])
    && q.own == p.own + TokensOf(visits) && p.own !! TokensOf(visits)
    && q.runs.Keys == p.runs.Keys && (forall t :: t in p.runs ==> q.runs[t] == p.runs[t] + OutcomesOf(visits, t))
    && InOrder(p, q, visits)
  }

  /** Each of these is a visit, they were made between p and q, and one came after the other. */
  ghost predicate InOrder(p: History, q: History, visits: seq<Visit>) {
    && (forall i :: 0 <= i < |visits| ==>
          && IsVisit(visits[i], q) && |p.steps| <= visits[i].from && p.now <= q.trace[visits[i].from].now <= q.now)
    && (forall i, j :: 0 <= i < j < |visits| ==> visits[i].from < visits[j].from)
  }

  /** The visits cover every tenant exactly once, and took place between these two moments. */
  ghost predicate FullPass(trace: seq<LockState>, visits: seq<Visit>, tenants: set<string>, start: int, stamp: int) {
    && TenantsOf(visits) == multiset(tenants)
    && forall i :: 0 <= i < |visits| ==> visits[i].from < |trace| && start <= trace[visits[i].from].now <= stamp
  }

  function Flatten(work: seq<seq<Visit>>): seq<Visit> {
    if work == [] then [] else Flatten(work[..|work| - 1]) + work[|work| - 1]
  }

  /** Every pass that left a stamp was a full one. */
  ghost predicate AllFull(trace: seq<LockState>, work: seq<seq<Visit>>, tenants: set<string>, passes: seq<Pass>) {
    |work| == |passes| && forall k :: 0 <= k < |passes| ==> FullPass(trace, work[k], tenants, passes[k].start, passes[k].stamp)
  }

  lemma StayFull(was: seq<LockState>, trace: seq<LockState>, work: seq<seq<Visit>>, tenants: set<string>, passes: seq<Pass>)
    requires AllFull(was, work, tenants, passes) && was <= trace
    ensures AllFull(trace, work, tenants, passes)
  {
    forall k | 0 <= k < |passes| ensures FullPass(trace, work[k], tenants, passes[k].start, passes[k].stamp) {
      assert FullPass(was, work[k], tenants, passes[k].start, passes[k].stamp);
    }
  }

  lemma OneMoreFull(
      q: History, r: History, work: seq<seq<Visit>>, tenants: set<string>, passes: seq<Pass>, visits: seq<Visit>)
    requires AllFull(r.trace, work, tenants, passes) && Visited(q, r, visits, false) && TenantsOf(visits) == multiset(tenants)
    ensures AllFull(r.trace, work + [visits], tenants, passes + [Pass(q.now, r.now)])
    ensures Flatten(work + [visits]) == Flatten(work) + visits
  {
    hide TenantsOf;
    assert (work + [visits])[..|work|] == work;
    assert FullPass(r.trace, visits, tenants, q.now, r.now) by {
      forall i | 0 <= i < |visits| ensures visits[i].from < |r.trace| && q.now <= r.trace[visits[i].from].now <= r.now {
        VisitPlace(visits[i], r);
      }
    }
  }

  lemma NoVisit(p: History, q: History)
    requires Later(p, q) && q.calls == p.calls && q.own == p.own && q.runs == p.runs
    ensures Visited(p, q, [], false) && TenantsOf([]) == multiset{}
  {
  }

  /** The context was asked and said yes. */
  lemma JustStopped(p: History, q: History)
    requires Later(p, q) && q.calls == p.calls + [Polled(true)] && q.own == p.own && q.runs == p.runs
    ensures Visited(p, q, [], true)
  {
  }

  /** The context was asked and said no, and then the visit was made. */
  lemma PolledThenMade(p: History, q: History, r: History, v: Visit)
    requires Later(p, q) && q.calls == p.calls + [Polled(false)] && q.own == p.own && q.runs == p.runs
    requires Made(q, r, v)
    ensures Visited(p, r, [v], false)
  {
    hide IsVisit, Later, CallsOf, TokensOf, TenantsOf, OutcomesOf;
    LaterAfterLater(p, q, r);
    Nothing("");
    LaterMeans(p, q);
    assert [] + [v] == [v];
    forall t | t in p.runs ensures r.runs[t] == p.runs[t] + OutcomesOf([v], t) {
      Nothing(t);
      Snoc([], v, t);
    }
    Snoc([], v, "");
  }

  lemma LaterMeans(p: History, q: History)
    requires Later(p, q)
    ensures p.now <= q.now && |p.steps| <= |q.steps|
  {
  }

  /** A visit asks the context nothing, so a pass stopped exactly if the context ever said that it was done. */
  lemma {:induction false} OnlyStopPolls(visits: seq<Visit>, q: History)
    requires forall i :: 0 <= i < |visits| ==> IsVisit(visits[i], q)
    ensures Polled(true) !in CallsOf(visits)
  {
    hide GivenBack;
    if visits != [] {
      var last := |visits| - 1;
      assert IsVisit(visits[last], q);
      OnlyStopPolls(visits[..last], q);
    }
  }

  lemma StoppedIff(p: History, q: History, visits: seq<Visit>, stopped: bool)
    requires Visited(p, q, visits, stopped)
    ensures p.calls <= q.calls && (stopped <==> Polled(true) in q.calls[|p.calls|..])
  {
    hide IsVisit, CallsOf, TokensOf, OutcomesOf;
    OnlyStopPolls(visits, q);
    assert q.calls[|p.calls|..] == CallsOf(visits) + if stopped then [Polled(true)] else [];
  }

  lemma VisitStays(v: Visit, p: History, q: History)
    requires IsVisit(v, p) && Later(p, q)
    ensures IsVisit(v, q)
  {
    if v.calls != [Tried(v.Key(), None)] {
      var token := v.calls[0].got.value;
      var i, j :| v.from < i < j < |p.steps| && p.steps[i] == EndWork(token) && p.steps[j].Release? && p.steps[j].token == token;
      assert q.steps[i] == EndWork(token) && q.steps[j] == p.steps[j];
    }
  }

  lemma InOrderAfter(p: History, q: History, r: History, first: seq<Visit>, second: seq<Visit>)
    requires Later(p, q) && Later(q, r) && InOrder(p, q, first) && InOrder(q, r, second)
    ensures InOrder(p, r, first + second)
  {
    hide IsVisit;
    var all := first + second;
    forall i | 0 <= i < |all|
      ensures IsVisit(all[i], r) && |p.steps| <= all[i].from < |r.trace| && p.now <= r.trace[all[i].from].now <= r.now
      ensures i < |first| ==> all[i].from < |q.steps|
    {
      if i < |first| {
        assert all[i] == first[i] && IsVisit(first[i], q);
        VisitPlace(first[i], q);
        VisitStays(first[i], q, r);
      } else {
        assert all[i] == second[i - |first|];
        VisitPlace(all[i], r);
      }
    }
  }

  lemma LaterAfterLater(p: History, q: History, r: History)
    requires Later(p, q) && Later(q, r)
    ensures Later(p, r)
  {
  }

  lemma VisitedAfterVisited(
      p: History, q: History, r: History, first: seq<Visit>, second: seq<Visit>, stopped: bool)
    requires Visited(p, q, first, false) && Visited(q, r, second, stopped)
    ensures Visited(p, r, first + second, stopped)
  {
    hide Later, InOrder, CallsOf, TokensOf, TenantsOf, OutcomesOf;
    LaterAfterLater(p, q, r);
    InOrderAfter(p, q, r, first, second);
    Concat(first, second, "");
    forall t | t in p.runs ensures r.runs[t] == p.runs[t] + OutcomesOf(first + second, t) {
      Concat(first, second, t);
    }
  }

  lemma VisitPlace(v: Visit, p: History)
    requires IsVisit(v, p)
    ensures v.from < |p.steps| < |p.trace|
  {
  }

  function LockedCalls(tenant: string, token: string, ok: bool): seq<Call> {
    [Tried(StoreKeys.ReconciliationLockKey(tenant), Some(token)), CleanedUp(tenant, ok), WorkEnded(token), GaveBack(token)]
  }

  /** q is where p's lock steps go on with a try for this lock. */
  ghost predicate TriesNext(p: History, q: History, key: string) {
    && Later(p, q) && p.trace[|p.steps|].now == p.now && |p.steps| < |q.steps|
    && (q.steps[|p.steps|].Acquire? || q.steps[|p.steps|].AcquireError?)
    && q.steps[|p.steps|].key == key && q.steps[|p.steps|].ttl == q.lockTTL
  }

  lemma ShowLater(p: History, q: History)
    requires p.now <= q.now && p.trace <= q.trace && p.steps <= q.steps && p.calls <= q.calls && p.lockTTL == q.lockTTL
    requires |p.trace| == |p.steps| + 1 && |q.trace| == |q.steps| + 1
    requires p.own <= q.own && p.own <= p.handles.Keys && q.own <= q.handles.Keys
    requires forall t :: t in p.own ==> q.handles[t] == p.handles[t]
    ensures Later(p, q)
  {
  }

  lemma ShowSkipped(p: History, q: History, v: Visit)
    requires TriesNext(p, q, v.Key()) && v.from == |p.steps| && v.calls == [Tried(v.Key(), None)]
    requires q.calls == p.calls + v.calls && q.own == p.own && q.runs == p.runs
    ensures Made(p, q, v)
  {
  }

  lemma ShowLocked(p: History, q: History, v: Visit, token: string, ok: bool)
    requires TriesNext(p, q, v.Key()) && v.from == |p.steps| && GivenBack(v, q, token)
    requires v.calls == LockedCalls(v.tenant, token, ok)
    requires q.calls == p.calls + v.calls && q.own == p.own + {token} && token !in p.own
    requires q.runs.Keys == p.runs.Keys
    requires forall t :: t in p.runs ==> q.runs[t] == p.runs[t] + if t == v.tenant then [ok] else []
    ensures Made(p, q, v)
  {
    hide GivenBack;
  }

  // ----- the reconciler -----

  /** The part of a tenant's TokenManager the reconciler uses; runs are the outcomes of its cleanups so far. */
  class Cleaner {
    const tenant: string
    const log: Log
    ghost var runs: seq<bool>

    constructor (tenant: string, log: Log)
      ensures this.tenant == tenant && this.log == log && runs == []
    {
      this.tenant, this.log, runs := tenant, log, [];
    }

    method CleanupExpiredTokens() returns (ok: bool)
      modifies this, log
      ensures runs == old(runs) + [ok]
      ensures log.calls == old(log.calls) + [CleanedUp(tenant, ok)]
    {
      ok := *;
      runs := runs + [ok];
      log.Add(CleanedUp(tenant, ok));
    }
  }

  /** A context.Context as Run uses it: once done it stays done. */
  class Context {
    const log: Log
    var done: bool

    constructor (log: Log)
      ensures this.log == log && !done
    {
      this.log, done := log, false;
    }

    /** select on ctx.Done() with a default. */
    method Poll() returns (d: bool)
      modifies this, log
      ensures d == done && (old(done) ==> d)
      ensures log.calls == old(log.calls) + [Polled(d)]
    {
      var cancelled: bool := *;
      done := done || cancelled;
      d := done;
      log.Add(Polled(d));
    }
  }

  lemma LockShape(locker: RedisLock)
    requires locker.Valid()
    ensures |locker.trace| == |locker.steps| + 1 && locker.own <= locker.handles.Keys
    ensures locker.trace[|locker.steps|].now == locker.now
  {
  }

  class CursorReconciler {
    const managers: map<string, Cleaner>   // the tenants given at construction
    const locker: RedisLock
    const lockTTL: int

    var lastSuccessAt: int

    ghost predicate Valid()
      reads locker
    {
      && locker.Valid() && lockTTL > 0
      && forall t :: t in managers ==> managers[t].tenant == t && managers[t].log == locker.log
    }

    ghost function Cleaners(): set<Cleaner> {
      set t | t in managers :: managers[t]
    }

    ghost function Past(): History
      reads locker, locker.log, Cleaners()
    {
      History(locker.now, locker.trace, locker.steps, locker.own, locker.handles, locker.log.calls,
                map t | t in managers :: managers[t].runs, lockTTL)
    }

    constructor (managers: map<string, Cleaner>, locker: RedisLock, lockTTL: int)
      requires locker.Valid() && lockTTL > 0
      requires forall t :: t in managers ==> managers[t].tenant == t && managers[t].log == locker.log
      ensures Valid() && this.managers == managers && this.locker == locker && this.lockTTL == lockTTL
      ensures lastSuccessAt == locker.now
    {
      this.managers, this.locker, this.lockTTL := managers, locker, lockTTL;
      lastSuccessAt := locker.now;
    }

    /** One tenant: lock, clean up, unlock; a tenant whose lock is taken is skipped. */
    method ProcessTenant(tenant: string) returns (ghost visit: Visit)
      requires Valid() && tenant in managers
      modifies locker, locker.log, managers[tenant]
      ensures Valid() && locker.Grew() && old(locker.now) <= locker.now
      ensures visit.tenant == tenant && Made(old(Past()), Past(), visit)
    {
      hide IsRun, Steps, Made, Later, Live, StoreKeys.ReconciliationLockKey;
      ghost var p := Past();
      LockShape(locker);
      var lk := locker.Acquire(StoreKeys.ReconciliationLockKey(tenant), lockTTL);
      if lk.Acquired? {
        var ok := CleanUp(tenant, lk.token);
        LockShape(locker);
        ShowLater(p, Past());
        visit := Visit(tenant, LockedCalls(tenant, lk.token, ok), |p.steps|);
        ShowLocked(p, Past(), visit, lk.token, ok);
      } else {
        LockShape(locker);
        ShowLater(p, Past());
        visit := Visit(tenant, [Tried(StoreKeys.ReconciliationLockKey(tenant), None)], |p.steps|);
        ShowSkipped(p, Past(), visit);
      }
    }

    /** Under the lock. */
    method CleanUp(tenant: string, token: string) returns (ok: bool)
      requires Valid() && tenant in managers && token in locker.own && Working(locker.Present(), token)
      modifies locker, locker.log, managers[tenant]
      ensures Valid() && locker.Grew() && old(locker.now) <= locker.now && locker.own == old(locker.own)
      ensures forall t :: t in locker.own && t != token ==> locker.handles[t] == old(locker.handles[t])
      ensures locker.handles[token] == old(locker.handles[token]).(released := true, working := false)
      ensures exists i, j :: |old(locker.steps)| <= i < j < |locker.steps| && locker.steps[i] == EndWork(token)
                             && locker.steps[j].Release? && locker.steps[j].token == token
      ensures locker.log.calls == old(locker.log.calls) + [CleanedUp(tenant, ok), WorkEnded(token), GaveBack(token)]
      ensures forall t :: t in managers ==> managers[t].runs == old(managers[t].runs) + if t == tenant then [ok] else []
    {
      hide IsRun, Steps;
      ok := managers[tenant].CleanupExpiredTokens();
      Finish(token);
    }

    /** The deferred release, once the work is over. */
    method Finish(token: string)
      requires locker.Valid() && token in locker.own && Working(locker.Present(), token)
      modifies locker, locker.log
      ensures locker.Valid() && locker.Grew() && old(locker.now) <= locker.now && locker.own == old(locker.own)
      ensures forall t :: t in locker.own && t != token ==> locker.handles[t] == old(locker.handles[t])
      ensures locker.handles[token] == old(locker.handles[token]).(released := true, working := false)
      ensures exists i, j :: |old(locker.steps)| <= i < j < |locker.steps| && locker.steps[i] == EndWork(token)
                             && locker.steps[j].Release? && locker.steps[j].token == token
      ensures locker.log.calls == old(locker.log.calls) + [WorkEnded(token), GaveBack(token)]
    {
      hide IsRun, Steps;
      locker.Interfere();
      ghost var i := |locker.steps|;
      locker.EndWork(token);
      locker.Interfere();
      ghost var j := |locker.steps|;
      locker.Release(token);
      assert locker.steps[i] == EndWork(token) && locker.steps[j].Release?;
    }

    lemma NothingYet()
      requires Valid()
      ensures Visited(Past(), Past(), [], false) && TenantsOf([]) == multiset{}
    {
      LockShape(locker);
      NoVisit(Past(), Past());
    }

    lemma PastIs()
      ensures Past().now == locker.now && Past().trace == locker.trace && Past().calls == locker.log.calls
    {
    }

    /** Others carry on until this time, or for a while. */
    method Await(t: int)
      requires Valid()
      modifies locker
      ensures Valid() && locker.Grew() && Visited(old(Past()), Past(), [], false)
      ensures locker.now == if old(locker.now) < t then t else old(locker.now)
    {
      hide IsRun, Steps, Visited;
      ghost var p := Past();
      LockShape(locker);
      if locker.now < t { locker.WaitUntil(t); }
      LockShape(locker);
      NoVisit(p, Past());
    }

    /** One turn of the loop: ask the context, and if it is not done process the tenant. */
    method Turn(ctx: Context, tenant: string) returns (done: bool, ghost visits: seq<Visit>)
      requires Valid() && tenant in managers && ctx.log == locker.log
      modifies locker, locker.log, ctx, Cleaners()
      ensures Valid() && locker.Grew() && old(locker.now) <= locker.now
      ensures done == ctx.done && Visited(old(Past()), Past(), visits, done)
      ensures if done then visits == [] else |visits| == 1 && visits[0].tenant == tenant
    {
      hide IsRun, Steps, Visited, Made, Later;
      ghost var p := Past();
      LockShape(locker);
      done := ctx.Poll();
      ShowLater(p, Past());
      if done {
        visits := [];
        JustStopped(p, Past());
      } else {
        ghost var q := Past();
        ghost var visit := ProcessTenant(tenant);
        visits := [visit];
        PolledThenMade(p, q, Past(), visit);
      }
    }

    /** The next tenant, after others carried on for a while. */
    method TakeTurn(ctx: Context, tenant: string) returns (done: bool, ghost visits: seq<Visit>)
      requires Valid() && tenant in managers && ctx.log == locker.log
      modifies locker, locker.log, ctx, Cleaners()
      ensures Valid() && locker.Grew() && old(locker.now) <= locker.now
      ensures done == ctx.done && Visited(old(Past()), Past(), visits, done)
      ensures if done then visits == [] else |visits| == 1 && visits[0].tenant == tenant
    {
      hide Past, IsRun, Steps, Visited;
      ghost var p := Past();
      var until: int := *;
      Await(until);
      ghost var q := Past();
      done, visits := Turn(ctx, tenant);
      VisitedAfterVisited(p, q, Past(), [], visits, done);
      assert [] + visits == visits;
    }

    /**
      One pass. It visits every tenant exactly once and stamps its end, unless the context, asked
      before each visit, says that it is done; then it stops there and leaves the stamp alone.
     */
    method Run(ctx: Context) returns (completed: bool, ghost visits: seq<Visit>)
      requires Valid() && ctx.log == locker.log
      modifies this`lastSuccessAt, locker, locker.log, ctx, Cleaners()
      ensures Valid() && locker.Grew() && old(locker.now) <= locker.now
      ensures Visited(old(Past()), Past(), visits, !completed)
      ensures old(locker.log.calls) <= locker.log.calls
      ensures completed <==> Polled(true) !in locker.log.calls[|old(locker.log.calls)|..]
      ensures !completed ==> ctx.done
      ensures completed ==> TenantsOf(visits) == multiset(managers.Keys) && lastSuccessAt == locker.now
      ensures !completed ==> TenantsOf(visits) < multiset(managers.Keys) && lastSuccessAt == old(lastSuccessAt)
    {
      hide Past, IsRun, Steps, Visited, TenantsOf;
      visits := [];
      ghost var p := Past();
      NothingYet();
      PastIs();
      completed := true;
      var left := managers.Keys;
      while left != {} && completed
        invariant Valid() && locker.Grew() && old(locker.now) <= locker.now
        invariant Visited(p, Past(), visits, !completed) && lastSuccessAt == old(lastSuccessAt)
        invariant left <= managers.Keys && TenantsOf(visits) + multiset(left) == multiset(managers.Keys)
        invariant !completed ==> left != {} && ctx.done
        decreases left, completed
      {
        var tenant :| tenant in left;
        ghost var q := Past();
        var done;
        ghost var more;
        done, more := TakeTurn(ctx, tenant);
        VisitedAfterVisited(p, q, Past(), visits, more, done);
        if done {
          completed := false;
          assert visits + more == visits;
        } else {
          Snoc(visits, more[0], tenant);
          assert visits + more == visits + [more[0]];
          visits, left := visits + more, left - {tenant};
        }
      }
      if completed { lastSuccessAt := locker.now; }
      PastIs();
      StoppedIff(p, Past(), visits, !completed);
    }

    /**
      The runner: a ticker started now, and a pass per tick, until the context is done, n at most. The
      stamps are those of a schedule; between the start and the stamp of each completed pass every
      tenant was visited; rest is what a pass that found the context done had done by then.
     */
    method RunOnTicks(ctx: Context, interval: int, n: nat)
      returns (ghost passes: seq<Pass>, ghost work: seq<seq<Visit>>, ghost rest: seq<Visit>)
      requires Valid() && interval > 0 && ctx.log == locker.log
      modifies this`lastSuccessAt, locker, locker.log, ctx, Cleaners()
      ensures Valid() && |passes| <= n && Visited(old(Past()), Past(), Flatten(work) + rest, |passes| < n)
      ensures old(locker.log.calls) <= locker.log.calls
      ensures |passes| < n <==> Polled(true) in locker.log.calls[|old(locker.log.calls)|..]
      ensures Scheduled(old(locker.now), interval, passes)
      ensures AllFull(locker.trace, work, managers.Keys, passes)
      ensures rest != [] ==> |passes| < n && TenantsOf(rest) < multiset(managers.Keys)
      ensures passes != [] ==> passes[|passes| - 1].stamp <= locker.now
      ensures lastSuccessAt == StampAt(old(lastSuccessAt), passes, locker.now)
    {
      hide Past, IsRun, Steps, NextTick, Scheduled, Visited, Flatten, TenantsOf, AllFull;
      passes, work, rest := [], [], [];
      var start := locker.now;
      var tick := start + interval;
      ghost var last, p := start, Past();
      NothingYet();
      PastIs();
      NoPass(start, interval, locker.trace, managers.Keys);
      for i := 0 to n
        invariant Valid() && locker.Grew() && Visited(p, Past(), Flatten(work), false) && |passes| == i && last == locker.now
        invariant Scheduled(start, interval, passes) && AllFull(locker.trace, work, managers.Keys, passes)
        invariant start <= locker.now
        invariant if i == 0 then tick == start + interval && last == start
                  else start <= passes[i - 1].start && last == passes[i - 1].stamp
                       && tick == NextTick(start, interval, passes[i - 1].start)
        invariant lastSuccessAt == if i == 0 then old(lastSuccessAt) else passes[i - 1].stamp
      {
        ghost var was, q := locker.trace, Past();
        Await(tick);
        VisitedAfterVisited(p, q, Past(), Flatten(work), [], false);
        assert Flatten(work) + [] == Flatten(work);
        q := Past();
        PastIs();
        var begun := locker.now;
        var completed;
        ghost var visits;
        completed, visits := Run(ctx);
        VisitedAfterVisited(p, q, Past(), Flatten(work), visits, !completed);
        PastIs();
        StayFull(was, locker.trace, work, managers.Keys, passes);
        if !completed {
          rest := visits;
          StoppedIff(p, Past(), Flatten(work) + rest, true);
          return;
        }
        tick := NextTick(start, interval, begun);
        OneMorePass(start, interval, passes, Pass(begun, locker.now));
        OneMoreFull(q, Past(), work, managers.Keys, passes, visits);
        passes, work, last := passes + [Pass(begun, locker.now)], work + [visits], locker.now;
      }
      assert Flatten(work) + [] == Flatten(work);
      PastIs();
      StoppedIff(p, Past(), Flatten(work), false);
    }
  }

  /** Across replicas, at most one holder of a tenant's reconciliation lock is cleaning up. */
  lemma OneCleanupPerTenant(trace: seq<LockState>, steps: seq<LockStep>, i: nat, a: string, b: string, t1: string, t2: string)
    requires IsRun(trace, steps) && i < |trace|
    requires forall j :: 0 <= j < i ==> TimelyOn(trace[j], StoreKeys.ReconciliationLockKey(a))
    requires Working(trace[i], t1) && trace[i].handles[t1].key == StoreKeys.ReconciliationLockKey(a)
    requires Working(trace[i], t2) && trace[i].handles[t2].key == StoreKeys.ReconciliationLockKey(b)
    ensures t1 == t2 <==> a == b
  {
    if a == b {
      MutualExclusion(trace, steps, i, StoreKeys.ReconciliationLockKey(a), t1, t2);
    }
    if t1 == t2 {
      ByteStrings.CancelPrefix(StoreKeys.RECONCILIATION_LOCK_PREFIX, a, b);
    }
  }

  // ----- freshness -----

  /** The first tick after t of a ticker started at t0. */
  function NextTick(t0: int, interval: int, t: int): (r: int)
    requires interval > 0 && t0 <= t
    ensures t < r <= t + interval
    decreases t - t0
  {
    if t < t0 + interval then t0 + interval else NextTick(t0 + interval, interval, t)
  }

  /** A ticker fires a whole number of intervals after its start. */
  lemma {:induction false} TicksAreRegular(t0: int, interval: int, t: int) returns (k: nat)
    requires interval > 0 && t0 <= t
    ensures k > 0 && NextTick(t0, interval, t) == t0 + k * interval
    decreases t - t0
  {
    if t < t0 + interval {
      k := 1;
    } else {
      k := TicksAreRegular(t0 + interval, interval, t);
      k := k + 1;
    }
  }

  /** A completed pass, from the moment it starts to its stamp. */
  datatype Pass = Pass(start: int, stamp: int)

  /**
    The schedule of a ticker started at t0: the first pass starts at the first tick, and every other
    at the first tick after the last one's start, or right after the last one if that tick has fired
    by then (the ticker's channel holds one).
   */
  ghost predicate Scheduled(t0: int, interval: int, passes: seq<Pass>)
    requires interval > 0
  {
    && (forall k :: 0 <= k < |passes| ==> t0 <= passes[k].start <= passes[k].stamp)
    && (passes != [] ==> passes[0].start == t0 + interval)
    && (forall k :: 0 < k < |passes| ==>
          var next := NextTick(t0, interval, passes[k - 1].start);
          passes[k].start == if next > passes[k - 1].stamp then next else passes[k - 1].stamp)
  }

  lemma NoPass(t0: int, interval: int, trace: seq<LockState>, tenants: set<string>)
    requires interval > 0
    ensures Scheduled(t0, interval, []) && AllFull(trace, [], tenants, []) && Flatten([]) == []
  {
  }

  lemma OneMorePass(t0: int, interval: int, passes: seq<Pass>, p: Pass)
    requires interval > 0 && Scheduled(t0, interval, passes) && t0 <= p.start <= p.stamp
    requires passes == [] ==> p.start == t0 + interval
    requires passes != [] ==>
               var last := passes[|passes| - 1];
               && t0 <= last.start
               && var next := NextTick(t0, interval, last.start);
                  p.start == if next > last.stamp then next else last.stamp
    ensures Scheduled(t0, interval, passes + [p])
  {
    hide NextTick;
  }

  /** The premise: no pass takes longer than an interval. */
  ghost predicate Prompt(interval: int, passes: seq<Pass>) {
    forall k :: 0 <= k < |passes| ==> passes[k].stamp <= passes[k].start + interval
  }

  /** What lastSuccessAt holds at time now: the latest stamp, or first if there is none. */
  function StampAt(first: int, passes: seq<Pass>, now: int): int {
    if passes == [] then first
    else if passes[|passes| - 1].stamp <= now then passes[|passes| - 1].stamp
    else StampAt(first, passes[..|passes| - 1], now)
  }

  /** ReconcilerChecker.Check: healthy unless the context is done or the last stamp is older than threshold. */
  predicate Healthy(cancelled: bool, lastSuccessAt: int, now: int, threshold: int) {
    !cancelled && now - lastSuccessAt <= threshold
  }

  /** The first stamp comes within two intervals of the start, and every other within two of the one before. */
  lemma StampsClose(t0: int, interval: int, passes: seq<Pass>, k: nat)
    requires interval > 0 && Scheduled(t0, interval, passes) && Prompt(interval, passes) && k < |passes|
    ensures var before := if k == 0 then t0 else passes[k - 1].stamp;
            before <= passes[k].stamp <= before + 2 * interval
  {
    if k > 0 {
      var next := NextTick(t0, interval, passes[k - 1].start);
    }
  }

  /**
    With a threshold of twice the interval, or a nanosecond less, the check never fails from the first
    stamp to the last, at any moment in between, unless its own context is cancelled.
   */
  lemma {:induction false} AlwaysHealthy(
      t0: int, first: int, interval: int, passes: seq<Pass>, now: int, threshold: int, cancelled: bool)
    requires interval > 0 && Scheduled(t0, interval, passes) && Prompt(interval, passes)
    requires passes != [] && passes[0].stamp <= now <= passes[|passes| - 1].stamp
    requires threshold >= 2 * interval - 1
    ensures Healthy(cancelled, StampAt(first, passes, now), now, threshold) <==> !cancelled
  {
    hide NextTick;
    var n := |passes| - 1;
    if n > 0 && now < passes[n].stamp {
      if now <= passes[n - 1].stamp {
        AlwaysHealthy(t0, first, interval, passes[..n], now, threshold, cancelled);
      } else {
        StampsClose(t0, interval, passes, n);
      }
    }
  }

  lemma {:induction false} VisitOf(visits: seq<Visit>, tenant: string) returns (i: nat)
    requires tenant in TenantsOf(visits)
    ensures i < |visits| && visits[i].tenant == tenant
  {
    i := |visits| - 1;
    if visits[i].tenant != tenant {
      i := VisitOf(visits[..i], tenant);
    }
  }

  /** And at any such moment every tenant's turn was at most three intervals ago: the pass that left the stamp, and two more. */
  lemma {:induction false} EveryTenantRecent(
      trace: seq<LockState>, work: seq<seq<Visit>>, tenants: set<string>, t0: int, interval: int, passes: seq<Pass>,
      now: int, tenant: string)
    returns (k: nat, i: nat)
    requires interval > 0 && Scheduled(t0, interval, passes) && Prompt(interval, passes) && AllFull(trace, work, tenants, passes)
    requires passes != [] && passes[0].stamp <= now <= passes[|passes| - 1].stamp && tenant in tenants
    ensures k < |work| && i < |work[k]| && work[k][i].tenant == tenant
    ensures work[k][i].from < |trace| && now - 3 * interval <= trace[work[k][i].from].now <= now
  {
    hide NextTick, TenantsOf;
    var n := |passes| - 1;
    if n > 0 && now <= passes[n - 1].stamp {
      k, i := EveryTenantRecent(trace, work[..n], tenants, t0, interval, passes[..n], now, tenant);
    } else {
      if n > 0 { StampsClose(t0, interval, passes, n); }
      k := if n > 0 && now < passes[n].stamp then n - 1 else n;
      assert FullPass(trace, work[k], tenants, passes[k].start, passes[k].stamp);
      i := VisitOf(work[k], tenant);
    }
  }

  /**
    No smaller threshold would do: a first pass of no length and a second of
    full length leave a moment at which the stamp is all but two intervals old.
   */
  lemma TwoIntervalsNeeded(first: int, interval: int, threshold: int) returns (passes: seq<Pass>, now: int)
    requires 0 < interval && threshold < 2 * interval - 1
    ensures Scheduled(0, interval, passes) && Prompt(interval, passes) && |passes| == 2
    ensures passes[0].stamp <= now <= passes[1].stamp && !Healthy(false, StampAt(first, passes, now), now, threshold)
  {
    assert NextTick(0, interval, interval) == NextTick(interval, interval, interval) == 2 * interval;
    passes := [Pass(interval, interval), Pass(2 * interval, 3 * interval)];
    now := 3 * interval - 1;
    assert passes[..1] == [Pass(interval, interval)];
  }
}
