/**
  The distributed lock (internal/lock/lock.go): SET NX with a time to live and a fresh token to
  acquire, compare-and-delete to release. Any number of holders on any number of replicas.
 */
module TtlLock {
  import opened Wrappers
  import opened RedisStore
  import opened CallLog

  /** One acquisition: its key, when and for how long, whether its work goes on, whether it was ever released. */
  datatype Handle = Handle(key: string, since: int, ttl: int, working: bool, released: bool)

  /** handles are the acquisitions so far by token; used are all tokens ever drawn. */
  datatype LockState = LockState(now: int, db: Db, handles: map<string, Handle>, used: set<string>)

  datatype LockStep =
    | Tick(d: nat)
    | Acquire(token: string, key: string, ttl: int)
    | AcquireError(token: string, key: string, ttl: int, written: bool)   // no handle; Redis may hold the token
    | EndWork(token: string)
    | Release(token: string, executed: bool)                              // executed is false if the script never ran

  predicate Enabled(s: LockState, step: LockStep) {
    match step
    case Tick(_) => true
    case Acquire(token, _, ttl) => token !in s.used && ttl > 0
    case AcquireError(token, _, ttl, _) => token !in s.used && ttl > 0
    case EndWork(token) => token in s.handles && s.handles[token].working
    case Release(token, _) => token in s.handles && !s.handles[token].working
  }

  function Apply(s: LockState, step: LockStep): LockState
    requires Enabled(s, step)
  {
    match step
    case Tick(d) => s.(now := s.now + d)
    case Acquire(token, key, ttl) =>
      var t := s.(used := s.used + {token});
      if Live(s.db, key, s.now) then t
      else t.(db := Put(s.db, key, token, s.now + ttl),
              handles := s.handles[token := Handle(key, s.now, ttl, true, false)])
    case AcquireError(token, key, ttl, written) =>
      s.(used := s.used + {token}, db := if written then PutIfAbsent(s.db, key, token, s.now, ttl) else s.db)
    case EndWork(token) => s.(handles := s.handles[token := s.handles[token].(working := false)])
    case Release(token, executed) =>
      s.(handles := s.handles[token := s.handles[token].(released := true)],
         db := if executed then CompareAndDelete(s.db, s.handles[token].key, token, s.now) else s.db)
  }

  /** No lock is held and no token in the store is one that may still be drawn. */
  ghost predicate Init(s: LockState) {
    s.handles == map[] && forall k :: k in s.db ==> s.db[k].value in s.used
  }

  ghost predicate Steps(trace: seq<LockState>, steps: seq<LockStep>) {
    && |trace| == |steps| + 1
    && forall i :: 0 <= i < |steps| ==> Enabled(trace[i], steps[i]) && trace[i + 1] == Apply(trace[i], steps[i])
  }

  ghost predicate IsRun(trace: seq<LockState>, steps: seq<LockStep>) {
    Steps(trace, steps) && Init(trace[0])
  }

  // ----- a token stays with its key -----

  /** Every stored token was drawn, and a handle's token is stored nowhere but under the handle's key. */
  ghost predicate TokensPlaced(s: LockState) {
    && (forall k :: k in s.db ==> s.db[k].value in s.used)
    && (forall t :: t in s.handles ==> t in s.used)
    && (forall k :: k in s.db && s.db[k].value in s.handles ==> s.handles[s.db[k].value].key == k)
  }

  /** A step turns no clock back and touches no handle but its own. */
  lemma StepFrame(s: LockState, step: LockStep, others: set<string>)
    requires Enabled(s, step) && TokensPlaced(s) && others <= s.handles.Keys
    requires step.EndWork? || step.Release? ==> step.token !in others
    ensures s.now <= Apply(s, step).now && (!step.Tick? ==> s.now == Apply(s, step).now) && others <= Apply(s, step).handles.Keys
    ensures forall t :: t in others ==> Apply(s, step).handles[t] == s.handles[t]
  {
  }

  lemma TokensPlacedStep(s: LockState, step: LockStep)
    requires Enabled(s, step) && TokensPlaced(s)
    ensures TokensPlaced(Apply(s, step))
  {
  }

  lemma {:induction false} TokensPlacedRun(trace: seq<LockState>, steps: seq<LockStep>, i: nat)
    requires IsRun(trace, steps) && i < |trace|
    ensures TokensPlaced(trace[i])
  {
    if i > 0 {
      TokensPlacedRun(trace, steps, i - 1);
      TokensPlacedStep(trace[i - 1], steps[i - 1]);
    }
  }

  // ----- mutual exclusion -----

  predicate Working(s: LockState, token: string) {
    token in s.handles && s.handles[token].working
  }

  /** The premise, for one key: work under it ends inside its time to live. */
  ghost predicate TimelyOn(s: LockState, key: string) {
    forall t :: Working(s, t) && s.handles[t].key == key ==> s.now < s.handles[t].since + s.handles[t].ttl
  }

  /** While a handle of the key is at work, the key holds its token, until its own deadline. */
  ghost predicate HeldOn(s: LockState, key: string) {
    forall t :: Working(s, t) && s.handles[t].key == key ==>
      key in s.db && s.db[key] == Entry(t, s.handles[t].since + s.handles[t].ttl)
  }

  /** Ending work keeps the premise. */
  lemma TimelyEnd(s: LockState, token: string, key: string)
    requires TimelyOn(s, key) && Enabled(s, EndWork(token))
    ensures TimelyOn(Apply(s, EndWork(token)), key)
  {
    forall t | Working(Apply(s, EndWork(token)), t) ensures Working(s, t) {
    }
  }

  lemma HeldStep(s: LockState, step: LockStep, key: string)
    requires Enabled(s, step) && TokensPlaced(s) && HeldOn(s, key) && TimelyOn(s, key)
    ensures HeldOn(Apply(s, step), key)
  {
    var t := Apply(s, step);
    forall w | Working(t, w) && t.handles[w].key == key
      ensures key in t.db && t.db[key] == Entry(w, t.handles[w].since + t.handles[w].ttl)
    {
      if !step.Acquire? || step.token != w {
        assert Working(s, w);
      }
    }
  }

  lemma {:induction false} HeldRun(trace: seq<LockState>, steps: seq<LockStep>, i: nat, key: string)
    requires IsRun(trace, steps) && i < |trace|
    requires forall j :: 0 <= j < i ==> TimelyOn(trace[j], key)
    ensures HeldOn(trace[i], key)
  {
    if i > 0 {
      HeldRun(trace, steps, i - 1, key);
      TokensPlacedRun(trace, steps, i - 1);
      HeldStep(trace[i - 1], steps[i - 1], key);
    }
  }

  /** While work under a key ends inside its time to live, the key never has two holders at work. */
  lemma MutualExclusion(trace: seq<LockState>, steps: seq<LockStep>, i: nat, key: string, t1: string, t2: string)
    requires IsRun(trace, steps) && i < |trace|
    requires forall j :: 0 <= j < i ==> TimelyOn(trace[j], key)
    requires Working(trace[i], t1) && Working(trace[i], t2)
    requires trace[i].handles[t1].key == trace[i].handles[t2].key == key
    ensures t1 == t2
  {
    HeldRun(trace, steps, i, key);
  }

  /** The premise is needed: once work outlives its time to live a second holder may be at work. */
  lemma LateWorkOverlaps(key: string, ttl: nat) returns (trace: seq<LockState>, steps: seq<LockStep>)
    requires ttl > 0
    ensures IsRun(trace, steps)
    ensures Working(trace[|steps|], "a") && Working(trace[|steps|], "b")
    ensures trace[|steps|].handles["a"].key == trace[|steps|].handles["b"].key == key
  {
    var s0 := LockState(0, map[], map[], {});
    steps := [Acquire("a", key, ttl), Tick(ttl), Acquire("b", key, ttl)];
    var s1 := Apply(s0, steps[0]);
    var s2 := Apply(s1, steps[1]);
    assert "a" != "b" by { assert "a"[0] != "b"[0]; }
    trace := [s0, s1, s2, Apply(s2, steps[2])];
  }

  /** t1 and t2 are at work on one key. */
  predicate BothHold(s: LockState, t1: string, t2: string) {
    t1 != t2 && Working(s, t1) && Working(s, t2) && s.handles[t1].key == s.handles[t2].key
  }

  /** The step acquires a key whose entry is gone or expired although w still works under it. */
  predicate AcquiresBeside(s: LockState, step: LockStep, w: string) {
    step.Acquire? && !Live(s.db, step.key, s.now) && Working(s, w) && s.handles[w].key == step.key
  }

  lemma OverlapBegins(s: LockState, step: LockStep, t1: string, t2: string)
    requires Enabled(s, step) && TokensPlaced(s) && BothHold(Apply(s, step), t1, t2) && !BothHold(s, t1, t2)
    ensures AcquiresBeside(s, step, t1) || AcquiresBeside(s, step, t2)
  {
    hide CompareAndDelete, PutIfAbsent, Put;
  }

  lemma {:induction false} OverlapHasStart(trace: seq<LockState>, steps: seq<LockStep>, j: nat, t1: string, t2: string)
    returns (i: nat, w: string)
    requires IsRun(trace, steps) && j < |trace| && BothHold(trace[j], t1, t2)
    ensures i < j && AcquiresBeside(trace[i], steps[i], w)
  {
    hide Apply, Enabled, AcquiresBeside, TokensPlaced;
    if BothHold(trace[j - 1], t1, t2) {
      i, w := OverlapHasStart(trace, steps, j - 1, t1, t2);
    } else {
      TokensPlacedRun(trace, steps, j - 1);
      OverlapBegins(trace[j - 1], steps[j - 1], t1, t2);
      i, w := j - 1, if AcquiresBeside(trace[j - 1], steps[j - 1], t1) then t1 else t2;
    }
  }

  /** With no premise: two holders are ever at work on one key if and only if some acquire finds it free while one still works. */
  lemma OverlapIff(trace: seq<LockState>, steps: seq<LockStep>)
    requires IsRun(trace, steps)
    ensures (exists j, t1, t2 :: 0 <= j < |trace| && BothHold(trace[j], t1, t2))
            <==> (exists i, w :: 0 <= i < |steps| && AcquiresBeside(trace[i], steps[i], w))
  {
    hide Apply, Enabled, BothHold, AcquiresBeside;
    if j: nat, t1, t2 :| j < |trace| && BothHold(trace[j], t1, t2) {
      var i, w := OverlapHasStart(trace, steps, j, t1, t2);
    }
    if i, w :| 0 <= i < |steps| && AcquiresBeside(trace[i], steps[i], w) {
      TokensPlacedRun(trace, steps, i);
      var t := OverlapFollows(trace[i], steps[i], w);
      assert BothHold(trace[i + 1], t, w);
    }
  }

  lemma OverlapFollows(s: LockState, step: LockStep, w: string) returns (t: string)
    requires Enabled(s, step) && TokensPlaced(s) && AcquiresBeside(s, step, w)
    ensures BothHold(Apply(s, step), t, w)
  {
    t := step.token;
  }

  // ----- release -----

  /** Release deletes the key's entry exactly when it is live and holds this handle's token. */
  lemma ReleaseOwnOnly(s: LockState, token: string)
    requires Enabled(s, Release(token, true))
    ensures var t, key := Apply(s, Release(token, true)), s.handles[token].key;
            && (forall k :: k != key ==> (k in t.db <==> k in s.db) && (k in s.db ==> t.db[k] == s.db[k]))
            && (key !in t.db <==> key !in s.db || (Live(s.db, key, s.now) && s.db[key].value == token))
            && (key in t.db ==> t.db[key] == s.db[key])
  {
  }

  /** In any run a release, however late and however often, leaves every other holder's lock alone. */
  lemma ReleaseSparesOthers(trace: seq<LockState>, steps: seq<LockStep>, i: nat, token: string, other: string, key: string)
    requires IsRun(trace, steps) && i < |steps| && steps[i].Release? && steps[i].token == token && token != other
    requires key in trace[i].db && trace[i].db[key].value == other
    ensures key in trace[i + 1].db && trace[i + 1].db[key] == trace[i].db[key]
  {
  }

  /** Releasing twice in a row is releasing once. */
  lemma ReleaseIdempotent(s: LockState, token: string)
    requires Enabled(s, Release(token, true))
    ensures var t := Apply(s, Release(token, true));
            Enabled(t, Release(token, true)) && Apply(t, Release(token, true)) == t
  {
    var t := Apply(s, Release(token, true));
    assert t.handles[token := t.handles[token].(released := true)] == t.handles;
  }

  /** An acquire succeeds exactly when nothing is stored under the key or what is stored has expired. */
  lemma AcquireSucceedsIff(s: LockState, token: string, key: string, ttl: int)
    requires Enabled(s, Acquire(token, key, ttl)) && TokensPlaced(s)
    ensures Working(Apply(s, Acquire(token, key, ttl)), token) <==> key !in s.db || s.db[key].expiry <= s.now
  {
  }

  // ----- the lock objects -----

  /** uuid.New: a token nobody drew before. */
  method FreshToken(used: set<string>) returns (token: string)
    ensures token !in used
  {
    var left := used;
    var n: nat := 0;
    while left != {}
      invariant left <= used
      invariant forall t :: t in used - left ==> |t| < n
      decreases left
    {
      var t :| t in left;
      if |t| >= n { n := |t| + 1; }
      left := left - {t};
    }
    assert used - left == used;
    token := seq(n, _ => 'x');
  }

  datatype AcquireResult = Acquired(token: string) | NotAcquired

  /**
    RedisLock as one replica holds it, over a store that every replica shares. net says which of its
    calls, by number, Redis answers; one it does not answer may have been carried out all the same.
   */
  class RedisLock {
    const log: Log
    const net: nat -> bool
    var sent: nat          // how many calls it has made
    var db: Db
    var now: int
    var handles: map<string, Handle>
    var used: set<string>
    var own: set<string>   // the tokens under which this replica ever got a lock
    ghost var trace: seq<LockState>
    ghost var steps: seq<LockStep>

    ghost function Present(): LockState
      reads this
    {
      LockState(now, db, handles, used)
    }

    ghost predicate Valid()
      reads this
    {
      IsRun(trace, steps) && trace[|steps|] == Present() && own <= handles.Keys
    }

    constructor (log: Log, net: nat -> bool, db: Db, now: int, used: set<string>)
      requires forall k :: k in db ==> db[k].value in used
      ensures Valid() && this.log == log && this.net == net && sent == 0 && steps == [] && handles == map[] && own == {}
    {
      this.log, this.net, this.db, this.now, this.used, handles, sent := log, net, db, now, used, map[], 0;
      own, trace, steps := {}, [LockState(now, db, map[], used)], [];
    }

    twostate predicate Grew()
      reads this
    {
      old(trace) <= trace && old(steps) <= steps
    }

    ghost method Log(step: LockStep)
      requires IsRun(trace, steps) && Enabled(trace[|steps|], step) && Present() == Apply(trace[|steps|], step)
      requires own <= handles.Keys
      modifies this`trace, this`steps
      ensures Valid() && steps == old(steps) + [step] && trace == old(trace) + [Present()]
    {
      trace, steps := trace + [Present()], steps + [step];
    }

    /** Tries key once: the lock is got exactly if Redis answers and the key is free. An error may still leave the token in Redis. */
    method Acquire(key: string, ttl: int) returns (r: AcquireResult)
      requires Valid() && ttl > 0
      modifies this, log
      ensures Valid() && Grew() && |steps| == |old(steps)| + 1 && now == old(now)
      ensures log.calls == old(log.calls) + [Tried(key, if r.Acquired? then Some(r.token) else None)]
      ensures var last := steps[|old(steps)|];
              && (last.Acquire? || last.AcquireError?) && last.key == key && last.ttl == ttl
              && (last.Acquire? <==> net(old(sent)))
              && (r.Acquired? <==> net(old(sent)) && !Live(old(db), key, now)) && (r.Acquired? ==> last.token == r.token)
      ensures r.Acquired? ==>
                && r.token !in old(handles) && own == old(own) + {r.token}
                && handles == old(handles)[r.token := Handle(key, now, ttl, true, false)]
      ensures r.NotAcquired? ==> handles == old(handles) && own == old(own)
    {
      TokensPlacedRun(trace, steps, |steps|);
      var token := FreshToken(used);
      var works, reached: bool := net(sent), *;
      sent, used := sent + 1, used + {token};
      if !works {
        if reached { db := PutIfAbsent(db, key, token, now, ttl); }
        r := NotAcquired;
        Log(AcquireError(token, key, ttl, reached));
      } else if Live(db, key, now) {
        r := NotAcquired;
        Log(LockStep.Acquire(token, key, ttl));
      } else {
        db := Put(db, key, token, now + ttl);
        handles := handles[token := Handle(key, now, ttl, true, false)];
        own := own + {token};
        r := Acquired(token);
        Log(LockStep.Acquire(token, key, ttl));
      }
      log.Add(Tried(key, if r.Acquired? then Some(r.token) else None));
    }

    method EndWork(token: string)
      requires Valid() && Working(Present(), token)
      modifies this, log
      ensures Valid() && Grew() && steps == old(steps) + [LockStep.EndWork(token)] && now == old(now) && own == old(own)
      ensures handles == old(handles)[token := old(handles[token]).(working := false)]
      ensures log.calls == old(log.calls) + [WorkEnded(token)]
    {
      handles := handles[token := handles[token].(working := false)];
      Log(LockStep.EndWork(token));
      log.Add(WorkEnded(token));
    }

    /** The compare-and-delete script; the caller ignores its error. */
    method Release(token: string)
      requires Valid() && token in handles && !handles[token].working
      modifies this, log
      ensures Valid() && Grew() && now == old(now) && own == old(own)
      ensures steps in {old(steps) + [LockStep.Release(token, true)], old(steps) + [LockStep.Release(token, false)]}
      ensures net(old(sent)) ==> steps == old(steps) + [LockStep.Release(token, true)]
      ensures handles == old(handles)[token := old(handles[token]).(released := true)]
      ensures log.calls == old(log.calls) + [GaveBack(token)]
    {
      var reached: bool := *;
      var executed := net(sent) || reached;
      sent := sent + 1;
      if executed { db := CompareAndDelete(db, handles[token].key, token, now); }
      handles := handles[token := handles[token].(released := true)];
      Log(LockStep.Release(token, executed));
      log.Add(GaveBack(token));
    }

    /** Any number of steps of the clock and of other replicas: the locks this one got stay as they are. */
    method Interfere()
      requires Valid()
      modifies this
      ensures Valid() && Grew() && old(now) <= now && own == old(own)
      ensures forall t :: t in own ==> handles[t] == old(handles[t])
    {
      var until: int := *;
      if until >= now { WaitUntil(until); }
    }

    /** Other replicas carry on until time t. */
    method WaitUntil(t: int)
      requires Valid() && now <= t
      modifies this
      ensures Valid() && Grew() && now == t && own == old(own)
      ensures forall h :: h in own ==> handles[h] == old(handles[h])
    {
      var left: nat := *;
      while left > 0
        invariant Valid() && Grew() && now <= t && own == old(own)
        invariant forall h :: h in own ==> handles[h] == old(handles[h])
      {
        hide Apply;
        left := left - 1;
        var d: nat := *;
        if d <= t - now { TickBy(d); }
        Other();
      }
      TickBy(t - now);
    }

    method TickBy(d: nat)
      requires Valid()
      modifies this
      ensures Valid() && Grew() && now == old(now) + d && own == old(own) && handles == old(handles)
    {
      now := now + d;
      Log(Tick(d));
    }

    /** At most one step of another replica, while the clock stands still. */
    method Other()
      requires Valid()
      modifies this
      ensures Valid() && Grew() && now == old(now) && own == old(own)
      ensures forall t :: t in own ==> handles[t] == old(handles[t])
    {
      hide Apply;
      var step: LockStep := *;
      var s := LockState(now, db, handles, used);
      if Enabled(s, step) && !step.Tick? && (step.EndWork? || step.Release? ==> step.token !in own) {
        TokensPlacedRun(trace, steps, |steps|);
        StepFrame(s, step, own);
        var t := Apply(s, step);
        now, db, handles, used := t.now, t.db, t.handles, t.used;
        Log(step);
      }
    }
  }
}
