/**
  What the protocol does not promise. Promotion is not a compare-and-set and a claim is not renewed,
  so a handler that outlives its claim runs beside the next one, and may then overwrite the newer
  record. Each run below has no store error at all and exists for every configuration.
 */
module IdempotencyLimits {
  import opened Wrappers
  import opened TokenPairWire
  import opened IdempotencyRecord
  import opened RequestFingerprint
  import opened RedisStore
  import opened IdempotencyProtocol
  import opened IdempotencyRuns

  function Session0(q: Request, p0: Phase, p1: Phase): map<Id, Session> {
    map[0 := Session(q, p0), 1 := Session(q, p1)]
  }

  /** Two identical requests claim the key pendingTTL apart; the first handler is still running. */
  lemma BothRunning(c: Config, q: Request) returns (trace: seq<State>, steps: seq<Step>)
    requires ValidConfig(c) && ValidRequest(q)
    ensures IsRun(c, trace, steps)
    ensures forall i :: 0 <= i < |steps| ==> !steps[i].ClaimError?
    ensures trace[|steps|] == State(c.pendingTTL,
              map[Key(q) := Entry(PENDING_RECORD, 2 * c.pendingTTL)],
              Session0(q, Running(0), Running(c.pendingTTL)), map[])
  {
    hide Key, ValidRequest;
    trace, steps := [State(0, map[], map[], map[])], [];
    trace, steps := Extend(c, trace, steps, Arrive(0, q));
    trace, steps := Extend(c, trace, steps, Arrive(1, q));
    assert trace[2] == State(0, map[], Session0(q, Arrived, Arrived), map[]);
    trace, steps := Extend(c, trace, steps, Claim(0));
    assert trace[3] == State(0, map[Key(q) := Entry(PENDING_RECORD, c.pendingTTL)], Session0(q, Running(0), Arrived), map[]);
    trace, steps := Extend(c, trace, steps, Tick(c.pendingTTL));
    assert !Live(trace[4].db, Key(q), trace[4].now);
    trace, steps := Extend(c, trace, steps, Claim(1));
  }

  /** Without the timing premise two handlers for one key can be in flight, with no store error. */
  lemma LateHandlerOverlaps(c: Config, q: Request) returns (trace: seq<State>, steps: seq<Step>)
    requires ValidConfig(c) && ValidRequest(q)
    ensures IsRun(c, trace, steps) && forall i :: 0 <= i < |steps| ==> !steps[i].ClaimError?
    ensures InFlight(trace[|steps|], 0) && InFlight(trace[|steps|], 1)
    ensures Key(trace[|steps|].sessions[0].req) == Key(trace[|steps|].sessions[1].req)
    ensures !TimelyOn(c, trace[|steps|], Key(q))
  {
    trace, steps := BothRunning(c, q);
    assert InFlightOn(trace[|steps|], 0, Key(q));
  }

  /** The second handler returns and its record is stored while the first is still running. */
  lemma NewerStored(c: Config, q: Request, newer: GoPair) returns (trace: seq<State>, steps: seq<Step>)
    requires ValidConfig(c) && ValidRequest(q) && Marshal(newer).Some?
    ensures IsRun(c, trace, steps) && forall i :: 0 <= i < |steps| ==> !steps[i].ClaimError?
    ensures trace[|steps|].sessions == Session0(q, Running(0), Done(Ran(Success(newer))))
    ensures trace[|steps|].now == c.pendingTTL
  {
    hide Key, ValidRequest, Marshal, Resolve, CompletedValue;
    trace, steps := BothRunning(c, q);
    trace, steps := Extend(c, trace, steps, Finish(1, Success(newer)));
    assert trace[|steps|].sessions == Session0(q, Running(0), Promoting(c.pendingTTL, newer));
    trace, steps := Extend(c, trace, steps, Promote(1, true));
  }

  /** The late one's promote then replaces the record the other client was answered from. */
  lemma LatePromoteOverwrites(c: Config, q: Request, newer: GoPair, late: GoPair)
    returns (trace: seq<State>, steps: seq<Step>)
    requires ValidConfig(c) && ValidRequest(q) && Marshal(newer).Some? && Marshal(late).Some?
    ensures IsRun(c, trace, steps) && forall i :: 0 <= i < |steps| ==> !steps[i].ClaimError?
    ensures var s := trace[|steps|];
            && s.sessions.Keys == {0, 1}
            && s.sessions[1].phase == Done(Ran(Success(newer)))
            && Key(q) in s.db && Live(s.db, Key(q), s.now)
            && Resolve(s.db[Key(q)].value) == Completed(late, Digest(c, q))
  {
    hide Key, ValidRequest, Marshal, Resolve, CompletedValue, Digest;
    trace, steps := NewerStored(c, q, newer);
    trace, steps := Extend(c, trace, steps, Finish(0, Success(late)));
    var s := trace[|steps|];
    assert s.sessions == Session0(q, Promoting(0, late), Done(Ran(Success(newer))));
    trace, steps := Extend(c, trace, steps, Promote(0, true));
    PromoteStores(c, s, 0);
    CompletedValueResolves(c, q, late);
  }

  // ----- exactly when a stored record stands -----

  /** The step is a promote on key that Redis carries out, and what it writes is not e. */
  ghost predicate Overwrites(c: Config, s: State, step: Step, key: string, e: Entry)
    requires ValidConfig(c)
  {
    && step.Promote? && step.written && step.r in s.sessions && s.sessions[step.r].phase.Promoting?
    && Key(s.sessions[step.r].req) == key
    && var value := CompletedValue(c, s.sessions[step.r].req, s.sessions[step.r].phase.pair);
       value.Some? && Entry(value.value, s.now + c.ttl) != e
  }

  /** A live record changes in a step exactly if the step overwrites it. */
  lemma StandsStep(c: Config, s: State, step: Step, key: string)
    requires ValidConfig(c) && Enabled(s, step) && Live(s.db, key, s.now)
    ensures key in Apply(c, s, step).db
    ensures Apply(c, s, step).db[key] == s.db[key] <==> !Overwrites(c, s, step, key, s.db[key])
  {
    hide Key, Judge, CompletedValue;
  }

  /** key holds e from after step i up to j. */
  ghost predicate HoldsThrough(trace: seq<State>, key: string, e: Entry, i: nat, j: nat)
    requires j < |trace|
  {
    forall m :: i < m <= j ==> key in trace[m].db && trace[m].db[key] == e
  }

  lemma {:induction false} StandsThrough(c: Config, trace: seq<State>, steps: seq<Step>, i: nat, j: nat, key: string, e: Entry)
    requires ValidConfig(c) && Steps(c, trace, steps) && i < j < |trace| && trace[j].now < e.expiry
    requires key in trace[i + 1].db && trace[i + 1].db[key] == e
    requires forall m :: i < m < j ==> !Overwrites(c, trace[m], steps[m], key, e)
    ensures HoldsThrough(trace, key, e, i, j)
  {
    hide Apply, Overwrites;
    if j > i + 1 {
      ClockMonotone(c, trace, steps, j - 1, j);
      StandsThrough(c, trace, steps, i, j - 1, key, e);
      StandsStep(c, trace[j - 1], steps[j - 1], key);
    }
  }

  /**
    With no premise on timing, errors or other keys: until it expires, the record that r stored at i
    stands through j if and only if no promote on its key in between writes another one.
   */
  lemma RecordStandsIff(c: Config, trace: seq<State>, steps: seq<Step>, i: nat, r: Id, pair: GoPair, j: nat)
    requires IsRun(c, trace, steps) && Stores(c, trace, steps, i, r, pair)
    requires i < j < |trace| && trace[j].now < trace[i].now + c.ttl
    ensures var q := trace[i].sessions[r].req;
            && CompletedValue(c, q, pair).Some?
            && var e := Entry(CompletedValue(c, q, pair).value, trace[i].now + c.ttl);
               HoldsThrough(trace, Key(q), e, i, j)
               <==> forall m :: i < m < j ==> !Overwrites(c, trace[m], steps[m], Key(q), e)
  {
    hide Apply, Key, CompletedValue, Marshal, Overwrites;
    var q := trace[i].sessions[r].req;
    PromoteStores(c, trace[i], r);
    var e := Entry(CompletedValue(c, q, pair).value, trace[i].now + c.ttl);
    if forall m :: i < m < j ==> !Overwrites(c, trace[m], steps[m], Key(q), e) {
      StandsThrough(c, trace, steps, i, j, Key(q), e);
    }
    if HoldsThrough(trace, Key(q), e, i, j) {
      forall m | i < m < j ensures !Overwrites(c, trace[m], steps[m], Key(q), e) {
        ClockMonotone(c, trace, steps, m, j);
        StandsStep(c, trace[m], steps[m], Key(q));
        assert Key(q) in trace[m + 1].db && trace[m + 1].db[Key(q)] == e;
      }
    }
  }

  // ----- exactly when exclusion fails -----

  /** q and r are both in flight on one key. */
  predicate SharesKey(s: State, q: Id, r: Id) {
    q != r && InFlight(s, q) && InFlight(s, r) && Key(s.sessions[q].req) == Key(s.sessions[r].req)
  }

  /** The step starts a handler: SetNX failed, or found no live record. */
  predicate ClaimStartsHandler(s: State, step: Step) {
    && (step.Claim? || step.ClaimError?) && step.r in s.sessions
    && (step.Claim? ==> !Live(s.db, Key(s.sessions[step.r].req), s.now))
  }

  /** And does so on a key that r's handler is still working on. */
  predicate StartsBeside(s: State, step: Step, r: Id) {
    ClaimStartsHandler(s, step) && r != step.r && InFlight(s, r) && Key(s.sessions[r].req) == Key(s.sessions[step.r].req)
  }

  lemma ClaimStartsHandlerIff(c: Config, s: State, step: Step, q: Id)
    requires ValidConfig(c) && Enabled(s, step)
    ensures InFlight(Apply(c, s, step), q) && !InFlight(s, q) <==> ClaimStartsHandler(s, step) && step.r == q
    ensures InFlight(Apply(c, s, step), q) ==> q in s.sessions && Apply(c, s, step).sessions[q].req == s.sessions[q].req
  {
    hide Key, Judge, CompletedValue, Put, PutIfAbsent;
  }

  lemma OverlapBegins(c: Config, s: State, step: Step, q: Id, r: Id)
    requires ValidConfig(c) && Enabled(s, step) && SharesKey(Apply(c, s, step), q, r) && !SharesKey(s, q, r)
    ensures StartsBeside(s, step, q) || StartsBeside(s, step, r)
  {
    hide Apply, Enabled, Key, InFlight, ClaimStartsHandler;
    ClaimStartsHandlerIff(c, s, step, q);
    ClaimStartsHandlerIff(c, s, step, r);
  }

  lemma OverlapFollows(c: Config, s: State, step: Step, r: Id) returns (q: Id)
    requires ValidConfig(c) && Enabled(s, step) && StartsBeside(s, step, r)
    ensures SharesKey(Apply(c, s, step), q, r)
  {
    hide Apply, Enabled, Key, Flying;
    q := step.r;
    ClaimStartsHandlerIff(c, s, step, step.r);
    StepFrame(c, s, step);
    ClaimantIdle(s, step);
  }

  lemma ClaimantIdle(s: State, step: Step)
    requires Enabled(s, step) && (step.Claim? || step.ClaimError?)
    ensures Actor(step) == Some(step.r) && !InFlight(s, step.r)
  {
  }

  /** An overlap at j began at some earlier step. */
  lemma {:induction false} OverlapHasStart(c: Config, trace: seq<State>, steps: seq<Step>, j: nat, q: Id, r: Id)
    returns (i: nat, w: Id)
    requires IsRun(c, trace, steps) && j < |trace| && SharesKey(trace[j], q, r)
    ensures i < j && StartsBeside(trace[i], steps[i], w)
  {
    hide Apply, Enabled, StartsBeside;
    if SharesKey(trace[j - 1], q, r) {
      i, w := OverlapHasStart(c, trace, steps, j - 1, q, r);
    } else {
      OverlapBegins(c, trace[j - 1], steps[j - 1], q, r);
      i, w := j - 1, if StartsBeside(trace[j - 1], steps[j - 1], q) then q else r;
    }
  }

  /**
    With no premise at all: a run has two handlers in flight on one key if and only if at some step
    SetNX fails, or finds no live record, while a handler for the key is still at work.
   */
  lemma OverlapIff(c: Config, trace: seq<State>, steps: seq<Step>)
    requires IsRun(c, trace, steps)
    ensures (exists j, q, r :: 0 <= j < |trace| && SharesKey(trace[j], q, r))
            <==> (exists i, w :: 0 <= i < |steps| && StartsBeside(trace[i], steps[i], w))
  {
    hide Apply, Enabled, SharesKey, StartsBeside;
    if j: nat, q, r :| j < |trace| && SharesKey(trace[j], q, r) {
      var i, w := OverlapHasStart(c, trace, steps, j, q, r);
    }
    if i, w :| 0 <= i < |steps| && StartsBeside(trace[i], steps[i], w) {
      var q := OverlapFollows(c, trace[i], steps[i], w);
      assert SharesKey(trace[i + 1], q, w);
    }
  }

  // ----- the premises can be met -----

  /** A request claims its key, runs and stores its record. */
  lemma StoredAtOnce(c: Config, q: Request, pair: GoPair) returns (trace: seq<State>, steps: seq<Step>)
    requires ValidConfig(c) && ValidRequest(q) && Marshal(pair).Some?
    ensures IsRun(c, trace, steps) && |trace| == |steps| + 1
    ensures steps == [Arrive(0, q), Claim(0), Finish(0, Success(pair)), Promote(0, true)]
    ensures trace[3].now == 0 && trace[3].sessions == map[0 := Session(q, Promoting(0, pair))]
    ensures trace[4].now == 0 && trace[4].sessions == map[0 := Session(q, Done(Ran(Success(pair))))]
  {
    hide Key, ValidRequest, Marshal, CompletedValue;
    trace, steps := [State(0, map[], map[], map[])], [];
    trace, steps := Extend(c, trace, steps, Arrive(0, q));
    trace, steps := Extend(c, trace, steps, Claim(0));
    trace, steps := Extend(c, trace, steps, Finish(0, Success(pair)));
    assert trace[3].sessions == map[0 := Session(q, Promoting(0, pair))];
    trace, steps := Extend(c, trace, steps, Promote(0, true));
  }

  lemma NowProtected(c: Config, q: Request, pair: GoPair, trace: seq<State>, steps: seq<Step>, j: nat)
    requires IsRun(c, trace, steps) && Marshal(pair).Some? && 3 < j < |trace|
    requires steps[3] == Promote(0, true) && forall m :: 4 <= m < |steps| ==> !steps[m].ClaimError?
    requires trace[3].sessions == map[0 := Session(q, Promoting(0, pair))] && trace[j].now == trace[3].now
    ensures Protected(c, trace, steps, 3, 0, pair, j)
  {
    hide Key, Apply, Marshal;
  }

  /** For every configuration, request and pair there is a run in which a protected record serves a retry. */
  lemma ReplayHappens(c: Config, q: Request, pair: GoPair) returns (trace: seq<State>, steps: seq<Step>)
    requires ValidConfig(c) && ValidRequest(q) && Marshal(pair).Some?
    ensures IsRun(c, trace, steps) && |trace| == |steps| + 1 && |steps| == 7
    ensures Protected(c, trace, steps, 3, 0, pair, 7) && 1 !in trace[4].sessions
    ensures 1 in trace[7].sessions && trace[7].sessions[1] == Session(q, Done(Hit(pair, Digest(c, q))))
  {
    hide Key, ValidRequest, Marshal, Resolve, CompletedValue, Digest, Protected;
    trace, steps := StoredAtOnce(c, q, pair);
    trace, steps := Extend(c, trace, steps, Arrive(1, q));
    NowProtected(c, q, pair, trace, steps, 5);
    RecordStands(c, trace, steps, 3, 0, pair, 5);
    trace, steps := Extend(c, trace, steps, Claim(1));
    NowProtected(c, q, pair, trace, steps, 6);
    RecordStands(c, trace, steps, 3, 0, pair, 6);
    trace, steps := Extend(c, trace, steps, Inspect(1));
    NowProtected(c, q, pair, trace, steps, 7);
  }
}
