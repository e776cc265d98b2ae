/**
  Theorems about every run of the idempotency protocol: exclusion and replay under a timing premise,
  provenance without one, the life of a record, and the outcome counters.
 */
module IdempotencyRuns {
  import ByteStrings
  import opened Wrappers
  import opened Grpc
  import opened TokenPairWire
  import opened IdempotencyRecord
  import opened RequestFingerprint
  import opened RedisStore
  import opened IdempotencyProtocol

  // ----- the clock and the shape of runs -----

  /** A run goes on with any enabled step. */
  lemma Extend(c: Config, trace: seq<State>, steps: seq<Step>, step: Step)
    returns (trace': seq<State>, steps': seq<Step>)
    requires IsRun(c, trace, steps) && Enabled(trace[|steps|], step)
    ensures steps' == steps + [step] && trace' == trace + [Apply(c, trace[|steps|], step)]
    ensures IsRun(c, trace', steps') && trace'[|steps'|] == Apply(c, trace[|steps|], step)
  {
    hide Apply, Enabled;
    steps' := steps + [step];
    trace' := trace + [Apply(c, trace[|steps|], step)];
  }

  /** A step moves at most its own request's session. */
  lemma OneSessionMoves(c: Config, s: State, step: Step)
    requires ValidConfig(c) && Enabled(s, step)
    ensures var t, r := Apply(c, s, step), Actor(step);
            && s.now <= t.now
            && (r.None? ==> t.sessions == s.sessions)
            && (r.Some? ==>
                  && r.value in t.sessions && t.sessions == s.sessions[r.value := t.sessions[r.value]]
                  && (r.value in s.sessions ==> t.sessions[r.value].req == s.sessions[r.value].req))
  {
    hide Key, Judge, CompletedValue, PutIfAbsent, Put, LabelOf, CountOf;
  }

  /** What no step does: turn the clock back, change a request, or touch another request's session. */
  lemma StepFrame(c: Config, s: State, step: Step)
    requires ValidConfig(c) && Enabled(s, step)
    ensures var t := Apply(c, s, step);
            && s.now <= t.now
            && (forall r :: r in s.sessions ==> r in t.sessions && t.sessions[r].req == s.sessions[r].req)
            && (forall r :: Actor(step) != Some(r) ==> (r in t.sessions <==> r in s.sessions))
            && (forall r :: r in s.sessions && Actor(step) != Some(r) ==> t.sessions[r] == s.sessions[r])
  {
    hide Apply, Enabled;
    OneSessionMoves(c, s, step);
  }

  lemma {:induction false} ClockMonotone(c: Config, trace: seq<State>, steps: seq<Step>, i: nat, j: nat)
    requires ValidConfig(c) && Steps(c, trace, steps) && i <= j < |trace|
    ensures trace[i].now <= trace[j].now
  {
    hide Apply;
    if i < j {
      ClockMonotone(c, trace, steps, i, j - 1);
      StepFrame(c, trace[j - 1], steps[j - 1]);
    }
  }

  /** A session keeps its request once it has arrived. */
  lemma {:induction false} RequestFixed(c: Config, trace: seq<State>, steps: seq<Step>, i: nat, j: nat, r: Id)
    requires ValidConfig(c) && Steps(c, trace, steps) && i <= j < |trace| && r in trace[i].sessions
    ensures r in trace[j].sessions && trace[j].sessions[r].req == trace[i].sessions[r].req
  {
    hide Apply;
    if i < j {
      RequestFixed(c, trace, steps, i, j - 1, r);
      StepFrame(c, trace[j - 1], steps[j - 1]);
    }
  }

  // ----- at most one handler in flight -----

  predicate Flying(p: Phase) {
    p.Running? || p.Promoting?
  }

  /** r's handler has started and its promote has not been answered. */
  predicate InFlight(s: State, r: Id) {
    r in s.sessions && Flying(s.sessions[r].phase)
  }

  predicate InFlightOn(s: State, r: Id, key: string) {
    InFlight(s, r) && Key(s.sessions[r].req) == key
  }

  /** The step is a SetNX for key that fails, so that its handler runs unprotected. */
  predicate FailedClaimOn(s: State, step: Step, key: string) {
    step.ClaimError? && step.r in s.sessions && Key(s.sessions[step.r].req) == key
  }

  /** No SetNX for key fails from step i up to step j. */
  ghost predicate NoFailedClaim(trace: seq<State>, steps: seq<Step>, key: string, i: nat, j: nat)
    requires j <= |steps| < |trace|
  {
    forall m :: i <= m < j ==> !FailedClaimOn(trace[m], steps[m], key)
  }

  /** Claim winners on key are within pendingTTL of their claim. */
  ghost predicate TimelyOn(c: Config, s: State, key: string) {
    forall r :: InFlightOn(s, r, key) ==> s.now < s.sessions[r].phase.since + c.pendingTTL
  }

  /** The premise for one key, up to step n: its SetNX never fails and its claim winners are timely. */
  ghost predicate CalmOn(c: Config, trace: seq<State>, steps: seq<Step>, key: string, n: nat)
    requires n <= |steps| < |trace|
  {
    NoFailedClaim(trace, steps, key, 0, n) && forall m :: 0 <= m < n ==> TimelyOn(c, trace[m], key)
  }

  /** Who is in flight on key holds it with its own, still pending claim, and shares it with nobody. */
  ghost predicate ExclusiveOn(c: Config, s: State, key: string) {
    && (forall r :: InFlightOn(s, r, key) ==>
          key in s.db && s.db[key] == Entry(PENDING_RECORD, s.sessions[r].phase.since + c.pendingTTL))
    && (forall q, r :: InFlightOn(s, q, key) && InFlightOn(s, r, key) ==> q == r)
  }

  /** How a request comes to be in flight: it was already, or its SetNX just failed or found no live record. */
  lemma FlightOrigin(c: Config, s: State, step: Step, q: Id)
    requires ValidConfig(c) && Enabled(s, step) && InFlight(Apply(c, s, step), q)
    ensures q in s.sessions && Apply(c, s, step).sessions[q].req == s.sessions[q].req
    ensures || (InFlight(s, q) && Apply(c, s, step).sessions[q].phase.since == s.sessions[q].phase.since
                && (step.Promote? ==> q != step.r))
            || (step == ClaimError(q, if step.ClaimError? then step.written else false))
            || (step == Claim(q) && !Live(s.db, Key(s.sessions[q].req), s.now))
  {
    hide Key, Judge, CompletedValue;
  }

  /** A record changes only through a claim or a promote of its own key. */
  lemma RecordFrame(c: Config, s: State, step: Step, key: string)
    requires ValidConfig(c) && Enabled(s, step)
    requires step.Claim? || step.ClaimError? || step.Promote? ==> key != Key(s.sessions[Actor(step).value].req)
    ensures key in s.db <==> key in Apply(c, s, step).db
    ensures key in s.db ==> Apply(c, s, step).db[key] == s.db[key]
  {
    hide Key, Judge, CompletedValue;
  }

  /** A claim leaves a live record alone, and takes a key that has none. */
  lemma ClaimOutcome(c: Config, s: State, r: Id)
    requires ValidConfig(c) && Enabled(s, Claim(r))
    ensures var t, key := Apply(c, s, Claim(r)), Key(s.sessions[r].req);
            && r in t.sessions
            && (if Live(s.db, key, s.now)
                then t.sessions[r].phase == Lost && key in t.db && t.db[key] == s.db[key]
                else t.sessions[r].phase == Running(s.now)
                     && key in t.db && t.db[key] == Entry(PENDING_RECORD, s.now + c.pendingTTL))
  {
    hide Key;
  }

  lemma ExclusiveStep(c: Config, s: State, step: Step, key: string)
    requires ValidConfig(c) && Enabled(s, step) && !FailedClaimOn(s, step, key)
    requires ExclusiveOn(c, s, key) && TimelyOn(c, s, key)
    ensures ExclusiveOn(c, Apply(c, s, step), key)
  {
    hide Apply, Key;
    var t := Apply(c, s, step);
    forall r | InFlightOn(t, r, key)
      ensures key in t.db && t.db[key] == Entry(PENDING_RECORD, t.sessions[r].phase.since + c.pendingTTL)
    {
      FlightOrigin(c, s, step, r);
      ExclusiveRecord(c, s, step, key, r);
    }
    forall q, r | InFlightOn(t, q, key) && InFlightOn(t, r, key) ensures q == r {
      ExclusivePair(c, s, step, key, q, r);
    }
  }

  lemma ExclusivePair(c: Config, s: State, step: Step, key: string, q: Id, r: Id)
    requires ValidConfig(c) && Enabled(s, step) && !FailedClaimOn(s, step, key)
    requires ExclusiveOn(c, s, key) && TimelyOn(c, s, key)
    requires InFlightOn(Apply(c, s, step), q, key) && InFlightOn(Apply(c, s, step), r, key)
    ensures q == r
  {
    hide Apply, Key;
    FlightOrigin(c, s, step, q);
    FlightOrigin(c, s, step, r);
    assert InFlight(s, q) ==> InFlightOn(s, q, key) && Live(s.db, key, s.now);
    assert InFlight(s, r) ==> InFlightOn(s, r, key) && Live(s.db, key, s.now);
  }

  lemma PromoterFlies(s: State, step: Step, key: string)
    requires Enabled(s, step)
    ensures step.Promote? && Key(s.sessions[step.r].req) == key ==> InFlightOn(s, step.r, key)
  {
    hide Key;
  }

  lemma ExclusiveRecord(c: Config, s: State, step: Step, key: string, r: Id)
    requires ValidConfig(c) && Enabled(s, step) && !FailedClaimOn(s, step, key)
    requires ExclusiveOn(c, s, key) && TimelyOn(c, s, key) && InFlightOn(Apply(c, s, step), r, key)
    ensures var t := Apply(c, s, step);
            key in t.db && t.db[key] == Entry(PENDING_RECORD, t.sessions[r].phase.since + c.pendingTTL)
  {
    hide Apply, Key;
    PromoterFlies(s, step, key);
    FlightOrigin(c, s, step, r);
    if step.Claim? {
      ClaimOutcome(c, s, step.r);
    }
    if !(step.Claim? && Key(s.sessions[step.r].req) == key) {
      assert InFlightOn(s, r, key);
      RecordFrame(c, s, step, key);
    }
  }

  lemma {:induction false} ExclusiveRun(c: Config, trace: seq<State>, steps: seq<Step>, key: string, i: nat)
    requires IsRun(c, trace, steps) && i < |trace| && CalmOn(c, trace, steps, key, i)
    ensures ExclusiveOn(c, trace[i], key)
  {
    hide Apply, Key;
    if i > 0 {
      ExclusiveRun(c, trace, steps, key, i - 1);
      ExclusiveStep(c, trace[i - 1], steps[i - 1], key);
    }
  }

  /** As long as the premise holds for a key, whatever happens on others, the key never has two handlers in flight. */
  lemma AtMostOneInFlight(c: Config, trace: seq<State>, steps: seq<Step>, key: string, i: nat, r1: Id, r2: Id)
    requires IsRun(c, trace, steps) && i < |trace| && CalmOn(c, trace, steps, key, i)
    requires InFlightOn(trace[i], r1, key) && InFlightOn(trace[i], r2, key)
    ensures r1 == r2
  {
    ExclusiveRun(c, trace, steps, key, i);
  }

  /** And while it has one, every other request that reads the key is turned away with Aborted, and not counted. */
  lemma WaitingIsAborted(c: Config, trace: seq<State>, steps: seq<Step>, key: string, i: nat, r: Id, q: Id)
    requires IsRun(c, trace, steps) && i < |steps| && CalmOn(c, trace, steps, key, i) && TimelyOn(c, trace[i], key)
    requires InFlightOn(trace[i], r, key) && steps[i] == Inspect(q) && Key(trace[i].sessions[q].req) == key
    ensures q in trace[i + 1].sessions && trace[i + 1].sessions[q].phase.Done?
    ensures ReplyOf(trace[i + 1].sessions[q].phase.outcome) == Failure(Aborted)
    ensures trace[i + 1].counters == trace[i].counters && trace[i + 1].db == trace[i].db
  {
    hide Apply, Key;
    ExclusiveRun(c, trace, steps, key, i);
    assert Enabled(trace[i], steps[i]) && trace[i + 1] == Apply(c, trace[i], steps[i]);
    ReadReplies(c, trace[i], q);
  }

  // ----- after a promote -----

  /** Step i stores the completed record of r, which returned pair. */
  ghost predicate Stores(c: Config, trace: seq<State>, steps: seq<Step>, i: nat, r: Id, pair: GoPair)
    requires ValidConfig(c) && Steps(c, trace, steps)
  {
    && i < |steps| && steps[i] == Promote(r, true)
    && trace[i].sessions[r].phase.pair == pair
    && Marshal(pair).Some?
  }

  /** Nobody but r is in flight on r's key. */
  ghost predicate Alone(s: State, r: Id)
    requires r in s.sessions
  {
    forall q :: InFlightOn(s, q, Key(s.sessions[r].req)) ==> q == r
  }

  /**
    The premise for what r stored at i, up to j: r was the only one in flight on its key when it
    promoted, no SetNX for the key failed since, and the record has not expired. Nothing is asked of
    other keys, of earlier times, or of how long any handler takes.
   */
  ghost predicate Protected(c: Config, trace: seq<State>, steps: seq<Step>, i: nat, r: Id, pair: GoPair, j: nat)
    requires ValidConfig(c) && Steps(c, trace, steps)
  {
    && Stores(c, trace, steps, i, r, pair) && Alone(trace[i], r)
    && i < j < |trace| && NoFailedClaim(trace, steps, Key(trace[i].sessions[r].req), i + 1, j)
    && trace[j].now < trace[i].now + c.ttl
  }

  /** On a calm key every promote is alone. */
  lemma CalmMeansAlone(c: Config, trace: seq<State>, steps: seq<Step>, i: nat, r: Id, pair: GoPair)
    requires IsRun(c, trace, steps) && Stores(c, trace, steps, i, r, pair)
    requires CalmOn(c, trace, steps, Key(trace[i].sessions[r].req), i)
    ensures Alone(trace[i], r)
  {
    hide Key, Apply;
    ExclusiveRun(c, trace, steps, Key(trace[i].sessions[r].req), i);
    assert Enabled(trace[i], steps[i]);
    assert InFlightOn(trace[i], r, Key(trace[i].sessions[r].req));
  }

  lemma PromoteStores(c: Config, s: State, r: Id)
    requires ValidConfig(c) && Enabled(s, Promote(r, true)) && Marshal(s.sessions[r].phase.pair).Some?
    ensures var q, value := s.sessions[r].req, CompletedValue(c, s.sessions[r].req, s.sessions[r].phase.pair);
            && value.Some?
            && Apply(c, s, Promote(r, true)).db == s.db[Key(q) := Entry(value.value, s.now + c.ttl)]
  {
    hide Key, EncodeCompleted, Marshal, Digest, End, Judge;
  }

  /** Nobody is in flight on key, and key holds e. */
  ghost predicate Quiet(s: State, key: string, e: Entry) {
    key in s.db && s.db[key] == e && forall q :: !InFlightOn(s, q, key)
  }

  lemma QuietStep(c: Config, s: State, step: Step, key: string, e: Entry)
    requires ValidConfig(c) && Enabled(s, step) && !FailedClaimOn(s, step, key)
    requires Quiet(s, key, e) && s.now < e.expiry
    ensures Quiet(Apply(c, s, step), key, e)
    ensures step.Claim? && Key(s.sessions[step.r].req) == key ==> Apply(c, s, step).sessions[step.r].phase == Lost
    ensures step.Promote? ==> Key(s.sessions[step.r].req) != key
  {
    hide Apply, Key;
    var t := Apply(c, s, step);
    forall q ensures !InFlightOn(t, q, key) {
      assert !InFlightOn(s, q, key);
      if InFlight(t, q) { FlightOrigin(c, s, step, q); }
    }
    PromoterFlies(s, step, key);
    if step.Claim? { ClaimOutcome(c, s, step.r); }
    if !(step.Claim? && Key(s.sessions[step.r].req) == key) {
      RecordFrame(c, s, step, key);
    }
  }

  /** While it is protected, the key holds exactly the winner's record and no handler for it is in flight. */
  lemma {:induction false} CompletedUntilExpiry(
      c: Config, trace: seq<State>, steps: seq<Step>, i: nat, r: Id, pair: GoPair, j: nat)
    requires IsRun(c, trace, steps) && Protected(c, trace, steps, i, r, pair, j)
    ensures var q := trace[i].sessions[r].req;
            && CompletedValue(c, q, pair).Some?
            && Quiet(trace[j], Key(q), Entry(CompletedValue(c, q, pair).value, trace[i].now + c.ttl))
  {
    hide Key, Apply, CompletedValue, Marshal, Quiet;
    var q := trace[i].sessions[r].req;
    PromoteStores(c, trace[i], r);
    var e := Entry(CompletedValue(c, q, pair).value, trace[i].now + c.ttl);
    if j == i + 1 {
      QuietFirst(c, trace[i], r, e);
    } else {
      ClockMonotone(c, trace, steps, j - 1, j);
      CompletedUntilExpiry(c, trace, steps, i, r, pair, j - 1);
      QuietStep(c, trace[j - 1], steps[j - 1], Key(q), e);
    }
  }

  lemma QuietFirst(c: Config, s: State, r: Id, e: Entry)
    requires ValidConfig(c) && Enabled(s, Promote(r, true)) && Alone(s, r)
    requires var t, key := Apply(c, s, Promote(r, true)), Key(s.sessions[r].req); key in t.db && t.db[key] == e
    ensures Quiet(Apply(c, s, Promote(r, true)), Key(s.sessions[r].req), e)
  {
    hide Apply, Key;
    var t := Apply(c, s, Promote(r, true));
    var key := Key(s.sessions[r].req);
    forall q ensures !InFlightOn(t, q, key) {
      assert InFlightOn(s, q, key) ==> q == r;
      if InFlight(t, q) { FlightOrigin(c, s, Promote(r, true), q); }
    }
  }

  /** Read back, that record is the winner's pair with the winner's fingerprint. */
  lemma RecordStands(c: Config, trace: seq<State>, steps: seq<Step>, i: nat, r: Id, pair: GoPair, j: nat)
    requires IsRun(c, trace, steps) && Protected(c, trace, steps, i, r, pair, j)
    ensures var q := trace[i].sessions[r].req;
            && Key(q) in trace[j].db && trace[j].db[Key(q)].expiry == trace[i].now + c.ttl
            && Resolve(trace[j].db[Key(q)].value) == Completed(pair, Digest(c, q))
  {
    hide Apply, Key, Resolve, CompletedValue, Digest, Marshal;
    CompletedUntilExpiry(c, trace, steps, i, r, pair, j);
    CompletedValueResolves(c, trace[i].sessions[r].req, pair);
  }

  /** q ends with the step from s to t. */
  predicate Ends(s: State, t: State, q: Id) {
    && q in s.sessions && !s.sessions[q].phase.Done?
    && q in t.sessions && t.sessions[q].phase.Done?
  }

  /**
    Replay. After r's completed record is stored, and for as long as it is protected: no handler for
    the key is in flight or starts, a request that reads the record gets r's pair if its fingerprint agrees and
    FailedPrecondition otherwise, and any OK reply for the key is r's pair.
   */
  lemma ReplayUntilExpiry(
      c: Config, trace: seq<State>, steps: seq<Step>, i: nat, r: Id, pair: GoPair, j: nat, q: Id)
    requires IsRun(c, trace, steps) && Protected(c, trace, steps, i, r, pair, j)
    requires j < |steps| && !FailedClaimOn(trace[j], steps[j], Key(trace[i].sessions[r].req))
    requires Actor(steps[j]) == Some(q) && q in trace[j].sessions
    requires Key(trace[j].sessions[q].req) == Key(trace[i].sessions[r].req)
    ensures !steps[j].Arrive? && (InFlight(trace[j + 1], q) ==> InFlight(trace[j], q)) && !InFlight(trace[j], q)
    ensures steps[j].Inspect? ==>
              trace[j + 1].sessions[q].phase ==
                Done(if Digest(c, trace[j].sessions[q].req) == Digest(c, trace[i].sessions[r].req)
                     then Hit(pair, Digest(c, trace[i].sessions[r].req)) else Mismatch)
    ensures Ends(trace[j], trace[j + 1], q) && ReplyOf(trace[j + 1].sessions[q].phase.outcome).Success? ==>
              ReplyOf(trace[j + 1].sessions[q].phase.outcome).value == pair
  {
    hide Apply, Key, Resolve, CompletedValue, Digest;
    var q0 := trace[i].sessions[r].req;
    CompletedUntilExpiry(c, trace, steps, i, r, pair, j);
    var e := Entry(CompletedValue(c, q0, pair).value, trace[i].now + c.ttl);
    RecordStands(c, trace, steps, i, r, pair, j);
    assert !InFlightOn(trace[j], q, Key(q0));
    QuietStep(c, trace[j], steps[j], Key(q0), e);
    StepFrame(c, trace[j], steps[j]);
    assert trace[j + 1] == Apply(c, trace[j], steps[j]) && !InFlightOn(trace[j + 1], q, Key(q0));
    QuietReply(c, trace[j], steps[j], q);
  }

  /** A request that is not in flight, before or after its step, ends only by reading the record. */
  lemma QuietReply(c: Config, s: State, step: Step, q: Id)
    requires ValidConfig(c) && Enabled(s, step) && Actor(step) == Some(q) && q in s.sessions
    requires !InFlight(s, q) && !InFlight(Apply(c, s, step), q)
    ensures q in Apply(c, s, step).sessions && Apply(c, s, step).sessions[q].req == s.sessions[q].req
    ensures !step.Arrive?
    ensures step.Inspect? ==> Apply(c, s, step).sessions[q].phase == Done(Judge(c, s.sessions[q].req, s.db, s.now))
    ensures !step.Inspect? && Ends(s, Apply(c, s, step), q) ==> ReplyOf(Apply(c, s, step).sessions[q].phase.outcome).Failure?
  {
    hide Key, Judge, CompletedValue;
  }

  /** q's handler has started, now or before. */
  predicate HasRun(s: State, q: Id) {
    q in s.sessions &&
    (Flying(s.sessions[q].phase) || (s.sessions[q].phase.Done? && s.sessions[q].phase.outcome.Ran?))
  }

  lemma HasRunStays(c: Config, s: State, step: Step, q: Id)
    requires ValidConfig(c) && Enabled(s, step) && HasRun(s, q)
    ensures HasRun(Apply(c, s, step), q)
  {
    hide Key, Judge, CompletedValue;
  }

  lemma {:induction false} HasRunForever(c: Config, trace: seq<State>, steps: seq<Step>, q: Id, i: nat, j: nat)
    requires ValidConfig(c) && Steps(c, trace, steps) && i <= j < |trace| && HasRun(trace[i], q)
    ensures HasRun(trace[j], q)
  {
    hide Apply, HasRun;
    if i < j {
      HasRunForever(c, trace, steps, q, i, j - 1);
      HasRunStays(c, trace[j - 1], steps[j - 1], q);
    }
  }

  /** How far a retry that is not yet answered, or is answered with pair, has got. */
  predicate Retrying(p: Phase, pair: TokenPair, f: string) {
    p.Arrived? || p.Lost? || p == Done(Hit(pair, f))
  }

  lemma RetryStep(c: Config, trace: seq<State>, steps: seq<Step>, i: nat, r: Id, pair: GoPair, j: nat, q: Id)
    requires IsRun(c, trace, steps) && Protected(c, trace, steps, i, r, pair, j)
    requires j < |steps| && !FailedClaimOn(trace[j], steps[j], Key(trace[i].sessions[r].req))
    requires !(steps[j].InspectError? && steps[j].r == q)
    requires var f := Digest(c, trace[i].sessions[r].req);
             q in trace[j].sessions && Retrying(trace[j].sessions[q].phase, pair, f)
             && Key(trace[j].sessions[q].req) == Key(trace[i].sessions[r].req) && Digest(c, trace[j].sessions[q].req) == f
    ensures q in trace[j + 1].sessions
    ensures Retrying(trace[j + 1].sessions[q].phase, pair, Digest(c, trace[i].sessions[r].req))
  {
    hide Apply, Key, Digest, Protected;
    StepFrame(c, trace[j], steps[j]);
    if Actor(steps[j]) == Some(q) {
      ReplayUntilExpiry(c, trace, steps, i, r, pair, j, q);
      OwnStep(c, trace[j], steps[j], q);
    }
  }

  lemma OwnStep(c: Config, s: State, step: Step, q: Id)
    requires ValidConfig(c) && Enabled(s, step) && Actor(step) == Some(q)
    requires q in s.sessions && (s.sessions[q].phase.Arrived? || s.sessions[q].phase.Lost?)
    ensures !step.Finish? && !step.Promote? && (step.ClaimError? ==> InFlight(Apply(c, s, step), q))
    ensures step.Claim? ==> Apply(c, s, step).sessions[q].phase.Lost? || InFlight(Apply(c, s, step), q)
  {
    hide Key, Judge, CompletedValue;
  }

  lemma ProtectedBefore(c: Config, trace: seq<State>, steps: seq<Step>, i: nat, r: Id, pair: GoPair, m: nat, j: nat)
    requires IsRun(c, trace, steps) && Protected(c, trace, steps, i, r, pair, j) && i < m <= j
    ensures Protected(c, trace, steps, i, r, pair, m)
    ensures m < j ==> !FailedClaimOn(trace[m], steps[m], Key(trace[i].sessions[r].req))
  {
    hide Apply, Key, Alone;
    ClockMonotone(c, trace, steps, m, j);
  }

  lemma {:induction false} RetryPhase(
      c: Config, trace: seq<State>, steps: seq<Step>, i: nat, r: Id, pair: GoPair, j: nat, q: Id, a: Request)
    requires IsRun(c, trace, steps) && Protected(c, trace, steps, i, r, pair, j)
    requires q in trace[i + 1].sessions ==> !trace[i + 1].sessions[q].phase.Done?
    requires forall k :: i < k < j ==> !(steps[k].InspectError? && steps[k].r == q)
    requires q in trace[j].sessions && trace[j].sessions[q].req == a
    requires Key(a) == Key(trace[i].sessions[r].req) && Digest(c, a) == Digest(c, trace[i].sessions[r].req)
    ensures Retrying(trace[j].sessions[q].phase, pair, Digest(c, a))
  {
    hide Apply, Key, Digest, Protected, CompletedValue;
    ProtectedOrder(c, trace, steps, i, r, pair, j);
    if j == i + 1 {
      CompletedUntilExpiry(c, trace, steps, i, r, pair, j);
      assert !InFlightOn(trace[j], q, Key(a));
    } else {
      ProtectedBefore(c, trace, steps, i, r, pair, j - 1, j);
      StepFrame(c, trace[j - 1], steps[j - 1]);
      if q in trace[j - 1].sessions {
        RetryPhase(c, trace, steps, i, r, pair, j - 1, q, a);
        RetryStep(c, trace, steps, i, r, pair, j - 1, q);
      } else {
        ArrivesFirst(c, trace[j - 1], steps[j - 1], q);
      }
    }
  }

  lemma ProtectedOrder(c: Config, trace: seq<State>, steps: seq<Step>, i: nat, r: Id, pair: GoPair, j: nat)
    requires IsRun(c, trace, steps) && Protected(c, trace, steps, i, r, pair, j)
    ensures i < j < |trace| && Stores(c, trace, steps, i, r, pair) && r in trace[i].sessions
  {
    hide Apply;
  }

  lemma ArrivesFirst(c: Config, s: State, step: Step, q: Id)
    requires ValidConfig(c) && Enabled(s, step) && q !in s.sessions && q in Apply(c, s, step).sessions
    ensures Apply(c, s, step).sessions[q].phase.Arrived?
  {
    hide Key, Judge, CompletedValue;
  }

  /**
    Retries are transparent. While r's record is protected, every request q with the same client key
    and content that was not answered before, and meets no Get error, is answered with exactly r's
    pair, and its handler has not run at any point of the run.
   */
  lemma RetryIsTransparent(
      c: Config, trace: seq<State>, steps: seq<Step>, i: nat, r: Id, pair: GoPair, j: nat, q: Id)
    requires IsRun(c, trace, steps) && Protected(c, trace, steps, i, r, pair, j)
    requires q in trace[i + 1].sessions ==> !trace[i + 1].sessions[q].phase.Done?
    requires forall k :: i < k < j ==> !(steps[k].InspectError? && steps[k].r == q)
    requires q in trace[j].sessions && trace[j].sessions[q].phase.Done?
    requires trace[j].sessions[q].req.clientKey == trace[i].sessions[r].req.clientKey
    requires SameContent(trace[j].sessions[q].req.input, trace[i].sessions[r].req.input)
    ensures ReplyOf(trace[j].sessions[q].phase.outcome) == Success(pair)
    ensures forall k :: 0 <= k <= j ==> !HasRun(trace[k], q)
  {
    hide Apply, Key, Digest, Protected;
    ProtectedOrder(c, trace, steps, i, r, pair, j);
    var a, b := trace[j].sessions[q].req, trace[i].sessions[r].req;
    SameContentSameDigest(c, a, b);
    RetryPhase(c, trace, steps, i, r, pair, j, q, a);
    forall k | 0 <= k <= j ensures !HasRun(trace[k], q) {
      if HasRun(trace[k], q) { HasRunForever(c, trace, steps, q, k, j); }
    }
  }

  lemma SameContentSameDigest(c: Config, a: Request, b: Request)
    requires ValidConfig(c) && SameContent(a.input, b.input)
    ensures Digest(c, a) == Digest(c, b)
    ensures a.clientKey == b.clientKey ==> Key(a) == Key(b)
  {
    if a.input.IssueInput? {
      ByteStrings.SortedIsCanonical(a.input.audiences, b.input.audiences);
    }
  }
}
