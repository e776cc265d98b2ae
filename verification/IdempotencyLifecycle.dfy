/** The life of one key's record, in every run of the protocol. */
module IdempotencyLifecycle {
  import opened Wrappers
  import opened IdempotencyRecord
  import opened RedisStore
  import opened IdempotencyProtocol

  /** The step asks for key: it is a claim, answered or not, by a request on key. */
  predicate Claims(s: State, step: Step, key: string) {
    (step.Claim? || step.ClaimError?) && step.r in s.sessions && Key(s.sessions[step.r].req) == key
  }

  /** The step stores a completed record under key. */
  predicate Completes(s: State, step: Step, key: string) {
    step.Promote? && step.written && step.r in s.sessions && Key(s.sessions[step.r].req) == key
  }

  /**
    While a record is live, the only thing that can happen to it is to be replaced by a completed
    record: nothing turns it back to pending, extends it or deletes it, and losers write nothing.
   */
  lemma LiveRecordOnlyCompletes(c: Config, s: State, step: Step, key: string)
    requires ValidConfig(c) && Enabled(s, step) && Live(s.db, key, s.now)
    ensures key in Apply(c, s, step).db
    ensures Apply(c, s, step).db[key] != s.db[key] ==>
              && Completes(s, step, key)
              && CompletedValue(c, s.sessions[step.r].req, s.sessions[step.r].phase.pair)
                 == Some(Apply(c, s, step).db[key].value)
              && Apply(c, s, step).db[key].expiry == s.now + c.ttl
    ensures step.Inspect? || step.InspectError? || step.Finish? ==> Apply(c, s, step).db == s.db
    ensures step.Claim? && Claims(s, step, key) ==> Apply(c, s, step).db == s.db
  {
    hide Key, Judge, CompletedValue;
  }

  /** A record changes to pending only by a claim that finds the key free, and then for pendingTTL. */
  lemma PendingOnlyByClaim(c: Config, s: State, step: Step, key: string)
    requires ValidConfig(c) && Enabled(s, step) && !Completes(s, step, key)
    requires key in Apply(c, s, step).db
    ensures || (key in s.db && Apply(c, s, step).db[key] == s.db[key])
            || (Claims(s, step, key) && !Live(s.db, key, s.now)
                && Apply(c, s, step).db[key] == Entry(PENDING_RECORD, s.now + c.pendingTTL))
  {
    hide Key, Judge, CompletedValue;
  }

  /** Step i is a claim of key that found it free and took it. */
  ghost predicate Takes(c: Config, trace: seq<State>, steps: seq<Step>, i: nat, key: string)
    requires ValidConfig(c) && Steps(c, trace, steps) && i < |steps|
  {
    && Claims(trace[i], steps[i], key) && !Live(trace[i].db, key, trace[i].now)
    && key in trace[i + 1].db
    && trace[i + 1].db[key] == Entry(PENDING_RECORD, trace[i].now + c.pendingTTL)
  }

  /**
    The record at j, if no completed record was written since a claim took the key at i, is the claim
    of the last request to take the key, and it runs out pendingTTL after that request's own claim.
   */
  lemma {:induction false} PendingIsLastClaim(
      c: Config, trace: seq<State>, steps: seq<Step>, i: nat, j: nat, key: string)
    returns (k: nat)
    requires IsRun(c, trace, steps) && i < j < |trace| && Takes(c, trace, steps, i, key)
    requires forall m :: i < m < j ==> !Completes(trace[m], steps[m], key)
    ensures i <= k < j && Takes(c, trace, steps, k, key)
    ensures key in trace[j].db && trace[j].db[key] == trace[k + 1].db[key]
  {
    hide Apply, Key, Claims, Completes;
    if j == i + 1 {
      k := i;
    } else {
      k := PendingIsLastClaim(c, trace, steps, i, j - 1, key);
      var s, step := trace[j - 1], steps[j - 1];
      KeyNeverDeleted(c, s, step, key);
      PendingOnlyByClaim(c, s, step, key);
      if trace[j].db[key] != s.db[key] {
        k := j - 1;
      }
    }
  }

  lemma KeyNeverDeleted(c: Config, s: State, step: Step, key: string)
    requires ValidConfig(c) && Enabled(s, step) && key in s.db
    ensures key in Apply(c, s, step).db
  {
    hide Key, Judge, CompletedValue;
  }

  /**
    Progress. A claim taken at i, whose handler fails, dies or never returns, holds the key no longer
    than pendingTTL: unless a completed record is written or another request takes the key in the
    meantime, the next SetNX at or after that moment wins.
   */
  lemma AbandonedClaimFreesKey(
      c: Config, trace: seq<State>, steps: seq<Step>, i: nat, j: nat, key: string, q: Id)
    requires IsRun(c, trace, steps) && i < j < |steps| && Takes(c, trace, steps, i, key)
    requires forall m :: i < m < j ==> !Completes(trace[m], steps[m], key)
    requires forall m :: i < m < j ==> !Takes(c, trace, steps, m, key)
    requires steps[j] == Claim(q) && Key(trace[j].sessions[q].req) == key
    ensures trace[j + 1].sessions[q].phase == Running(trace[j].now)
            <==> trace[j].now >= trace[i].now + c.pendingTTL
    ensures trace[j + 1].sessions[q].phase == Lost
            <==> trace[j].now < trace[i].now + c.pendingTTL
  {
    hide Apply, Key, Claims, Completes;
    var k := PendingIsLastClaim(c, trace, steps, i, j, key);
    assert k == i;
    ClaimDecides(c, trace[j], q);
  }

  lemma ClaimDecides(c: Config, s: State, q: Id)
    requires ValidConfig(c) && Enabled(s, Claim(q))
    ensures var t := Apply(c, s, Claim(q));
            q in t.sessions &&
            t.sessions[q].phase == if Live(s.db, Key(s.sessions[q].req), s.now) then Lost else Running(s.now)
  {
    hide Key;
  }
}
