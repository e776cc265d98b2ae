/**
  Where served pairs come from, in every run of the protocol: with store errors, late or lost
  promotes, expired claims and overlapping handlers all allowed.
 */
module IdempotencyProvenance {
  import opened Wrappers
  import opened Grpc
  import opened TokenPairWire
  import opened IdempotencyRecord
  import opened RequestFingerprint
  import opened RedisStore
  import opened IdempotencyProtocol
  import opened IdempotencyRuns

  /** r's handler has returned pair. */
  predicate Returned(s: State, r: Id, pair: TokenPair) {
    r in s.sessions &&
    match s.sessions[r].phase
    case Promoting(_, p) => p == pair
    case Done(Ran(Success(p))) => p == pair
    case _ => false
  }

  /** Some request on key with fingerprint f had its handler return pair. */
  ghost predicate Backed(c: Config, s: State, key: string, pair: TokenPair, f: string)
    requires ValidConfig(c)
  {
    exists r :: BackedBy(c, s, key, pair, f, r)
  }

  ghost predicate BackedBy(c: Config, s: State, key: string, pair: TokenPair, f: string, r: Id)
    requires ValidConfig(c)
  {
    Returned(s, r, pair) && Key(s.sessions[r].req) == key && Digest(c, s.sessions[r].req) == f
  }

  lemma BackedWitness(c: Config, s: State, key: string, pair: TokenPair, f: string) returns (r: Id)
    requires ValidConfig(c) && Backed(c, s, key, pair, f)
    ensures r in s.sessions && Returned(s, r, pair)
    ensures Key(s.sessions[r].req) == key && Digest(c, s.sessions[r].req) == f
  {
    hide Key, Digest;
    r :| BackedBy(c, s, key, pair, f, r);
  }

  /** Every fingerprinted record, and every pair served from one, is backed. */
  ghost predicate Sound(c: Config, s: State)
    requires ValidConfig(c)
  {
    && (forall key :: key in s.db ==> RecordBacked(c, s, key, s.db[key].value))
    && (forall q :: q in s.sessions ==> ServedBacked(c, s, q))
  }

  ghost predicate RecordBacked(c: Config, s: State, key: string, value: string)
    requires ValidConfig(c)
  {
    match Resolve(value)
    case Completed(pair, f) => f != "" ==> Backed(c, s, key, pair, f)
    case _ => true
  }

  ghost predicate ServedBacked(c: Config, s: State, q: Id)
    requires ValidConfig(c) && q in s.sessions
  {
    match s.sessions[q].phase
    case Done(Hit(pair, f)) =>
      f != "" ==> f == Digest(c, s.sessions[q].req) && Backed(c, s, Key(s.sessions[q].req), pair, f)
    case _ => true
  }

  lemma ReturnedStays(c: Config, s: State, step: Step, r: Id, pair: TokenPair)
    requires ValidConfig(c) && Enabled(s, step) && Returned(s, r, pair)
    ensures Returned(Apply(c, s, step), r, pair)
    ensures Apply(c, s, step).sessions[r].req == s.sessions[r].req
  {
    hide Key, Judge, CompletedValue;
  }

  lemma BackedStays(c: Config, s: State, step: Step, key: string, pair: TokenPair, f: string)
    requires ValidConfig(c) && Enabled(s, step) && Backed(c, s, key, pair, f)
    ensures Backed(c, Apply(c, s, step), key, pair, f)
  {
    hide Apply, Key, Returned, Digest;
    var r := BackedWitness(c, s, key, pair, f);
    ReturnedStays(c, s, step, r, pair);
    assert BackedBy(c, Apply(c, s, step), key, pair, f, r);
  }

  /** What a step may leave in the store: an old record, a claim, or the record of the request it promotes. */
  lemma RecordOrigin(c: Config, s: State, step: Step, key: string)
    requires ValidConfig(c) && Enabled(s, step) && key in Apply(c, s, step).db
    ensures var t := Apply(c, s, step);
            || (key in s.db && t.db[key] == s.db[key])
            || t.db[key].value == PENDING_RECORD
            || (step.Promote? && key == Key(s.sessions[step.r].req)
                && CompletedValue(c, s.sessions[step.r].req, s.sessions[step.r].phase.pair) == Some(t.db[key].value))
  {
    hide Key, Judge, CompletedValue;
  }

  lemma PromoteReturned(c: Config, s: State, step: Step)
    requires ValidConfig(c) && Enabled(s, step) && step.Promote?
    ensures Returned(Apply(c, s, step), step.r, s.sessions[step.r].phase.pair)
    ensures Apply(c, s, step).sessions[step.r].req == s.sessions[step.r].req
  {
    hide Key, Judge, CompletedValue;
  }

  lemma RecordBackedStep(c: Config, s: State, step: Step, key: string)
    requires ValidConfig(c) && Enabled(s, step) && Sound(c, s) && key in Apply(c, s, step).db
    ensures RecordBacked(c, Apply(c, s, step), key, Apply(c, s, step).db[key].value)
  {
    hide Apply, Resolve, CompletedValue, Key, Digest, Backed, Returned;
    var t := Apply(c, s, step);
    RecordOrigin(c, s, step, key);
    if key in s.db && t.db[key] == s.db[key] {
      assert RecordBacked(c, s, key, s.db[key].value);
      match Resolve(t.db[key].value)
      case Completed(pair, f) => if f != "" { BackedStays(c, s, step, key, pair, f); }
      case _ =>
    } else if t.db[key].value == PENDING_RECORD {
      ResolvePending();
    } else {
      var q, pair := s.sessions[step.r].req, s.sessions[step.r].phase.pair;
      CompletedValueResolves(c, q, pair);
      PromoteReturned(c, s, step);
      assert Backed(c, t, key, pair, Digest(c, q)) by { ShowBacked(c, t, step.r, pair); }
    }
  }

  lemma ShowBacked(c: Config, s: State, r: Id, pair: TokenPair)
    requires ValidConfig(c) && Returned(s, r, pair)
    ensures Backed(c, s, Key(s.sessions[r].req), pair, Digest(c, s.sessions[r].req))
  {
    hide Key, Digest;
    assert BackedBy(c, s, Key(s.sessions[r].req), pair, Digest(c, s.sessions[r].req), r);
  }

  /** How a session can come to hold a hit: it already did, or it just read the record it serves. */
  lemma HitOrigin(c: Config, s: State, step: Step, q: Id)
    requires ValidConfig(c) && Enabled(s, step)
    requires var t := Apply(c, s, step);
             q in t.sessions && t.sessions[q].phase.Done? && t.sessions[q].phase.outcome.Hit?
    ensures var t, key := Apply(c, s, step), Key(Apply(c, s, step).sessions[q].req);
            || (q in s.sessions && s.sessions[q] == t.sessions[q])
            || (step == Inspect(q) && q in s.sessions && s.sessions[q].req == t.sessions[q].req
                && t.db == s.db && key in s.db
                && Resolve(s.db[key].value)
                   == Completed(t.sessions[q].phase.outcome.pair, t.sessions[q].phase.outcome.storedFingerprint)
                && t.sessions[q].phase.outcome.storedFingerprint in {"", Digest(c, s.sessions[q].req)})
  {
    hide Key, CompletedValue, Resolve, Digest;
  }

  lemma ServedBackedStep(c: Config, s: State, step: Step, q: Id)
    requires ValidConfig(c) && Enabled(s, step) && Sound(c, s) && q in Apply(c, s, step).sessions
    ensures ServedBacked(c, Apply(c, s, step), q)
  {
    hide Apply, Resolve, Key, Digest, Backed;
    var t := Apply(c, s, step);
    match t.sessions[q].phase
    case Done(Hit(pair, f)) =>
      if f != "" {
        HitOrigin(c, s, step, q);
        var key := Key(t.sessions[q].req);
        if q in s.sessions && s.sessions[q] == t.sessions[q] {
          assert ServedBacked(c, s, q);
        } else {
          assert RecordBacked(c, s, key, s.db[key].value);
        }
        BackedStays(c, s, step, key, pair, f);
      }
    case _ =>
  }

  lemma {:induction false} SoundRun(c: Config, trace: seq<State>, steps: seq<Step>, i: nat)
    requires IsRun(c, trace, steps) && i < |trace|
    ensures Sound(c, trace[i])
  {
    hide Apply, RecordBacked, ServedBacked;
    if i == 0 {
      forall key | key in trace[0].db ensures RecordBacked(c, trace[0], key, trace[0].db[key].value) {
        InitialRecordBacked(c, trace[0], key);
      }
    } else {
      SoundRun(c, trace, steps, i - 1);
      var s, step := trace[i - 1], steps[i - 1];
      forall key | key in trace[i].db ensures RecordBacked(c, trace[i], key, trace[i].db[key].value) {
        RecordBackedStep(c, s, step, key);
      }
      forall q | q in trace[i].sessions ensures ServedBacked(c, trace[i], q) {
        ServedBackedStep(c, s, step, q);
      }
    }
  }

  lemma InitialRecordBacked(c: Config, s: State, key: string)
    requires ValidConfig(c) && Init(s) && key in s.db
    ensures RecordBacked(c, s, key, s.db[key].value)
  {
    hide Resolve, Backed;
    assert Unfingerprinted(s.db[key].value);
  }

  lemma ReturnedOrigin(c: Config, s: State, step: Step, r: Id, pair: TokenPair)
    requires ValidConfig(c) && Enabled(s, step) && Returned(Apply(c, s, step), r, pair)
    ensures Returned(s, r, pair) || (step.Finish? && step.r == r && step.result == Success(pair))
  {
    hide Key, CompletedValue;
  }

  /** A returned pair was returned at some step. */
  lemma {:induction false} ReturnedAtSomeStep(
      c: Config, trace: seq<State>, steps: seq<Step>, j: nat, r: Id, pair: TokenPair)
    returns (i: nat)
    requires IsRun(c, trace, steps) && j < |trace| && Returned(trace[j], r, pair)
    ensures i < j && steps[i].Finish? && steps[i].r == r && steps[i].result == Success(pair)
  {
    hide Apply;
    ReturnedOrigin(c, trace[j - 1], steps[j - 1], r, pair);
    if Returned(trace[j - 1], r, pair) {
      i := ReturnedAtSomeStep(c, trace, steps, j - 1, r, pair);
    } else {
      i := j - 1;
    }
  }

  /** sha does not collide on the requests of this state: the only sense in which it is collision-free. */
  ghost predicate NoCollision(c: Config, s: State) {
    forall a, b :: a in s.sessions && b in s.sessions ==>
      var x, y := Canonical(s.sessions[a].req.input), Canonical(s.sessions[b].req.input);
      c.sha(x) == c.sha(y) ==> x == y
  }

  lemma {:induction false} RequestsValid(c: Config, trace: seq<State>, steps: seq<Step>, i: nat, r: Id)
    requires IsRun(c, trace, steps) && i < |trace| && r in trace[i].sessions
    ensures ValidRequest(trace[i].sessions[r].req)
  {
    hide Apply, ValidRequest;
    if i > 0 {
      StepFrame(c, trace[i - 1], steps[i - 1]);
      if r in trace[i - 1].sessions {
        RequestsValid(c, trace, steps, i - 1, r);
      } else {
        ArrivalValid(c, trace[i - 1], steps[i - 1], r);
      }
    }
  }

  lemma ArrivalValid(c: Config, s: State, step: Step, r: Id)
    requires ValidConfig(c) && Enabled(s, step) && r !in s.sessions && r in Apply(c, s, step).sessions
    ensures ValidRequest(Apply(c, s, step).sessions[r].req)
  {
    hide Key, Judge, CompletedValue, ValidRequest;
  }

  /**
    Provenance. A pair served from a fingerprinted record was returned by the handler of an earlier
    request with the same key and fingerprint: the same tenant, RPC and client key for tenants free of
    ':', and the same content unless sha collides on the requests seen.
   */
  lemma ServedPairWasReturned(
      c: Config, trace: seq<State>, steps: seq<Step>, j: nat, q: Id, pair: TokenPair, f: string)
    returns (r: Id, i: nat)
    requires IsRun(c, trace, steps) && j < |trace|
    requires q in trace[j].sessions && trace[j].sessions[q].phase == Done(Hit(pair, f)) && f != ""
    ensures i < j && steps[i].Finish? && steps[i].r == r && steps[i].result == Success(pair)
    ensures r in trace[j].sessions
    ensures Key(trace[j].sessions[r].req) == Key(trace[j].sessions[q].req)
    ensures Digest(c, trace[j].sessions[r].req) == Digest(c, trace[j].sessions[q].req) == f
    ensures var a, b := trace[j].sessions[r].req, trace[j].sessions[q].req;
            ':' !in a.input.tenantId && ':' !in b.input.tenantId ==>
              && a.input.tenantId == b.input.tenantId && a.clientKey == b.clientKey
              && (a.input.IssueInput? <==> b.input.IssueInput?)
    ensures NoCollision(c, trace[j]) ==>
              SameContent(trace[j].sessions[r].req.input, trace[j].sessions[q].req.input)
  {
    hide Apply, Key, Returned, SameContent, ValidRequest, Backed, Digest;
    SoundRun(c, trace, steps, j);
    assert ServedBacked(c, trace[j], q);
    r := BackedWitness(c, trace[j], Key(trace[j].sessions[q].req), pair, f);
    var a, b := trace[j].sessions[r].req, trace[j].sessions[q].req;
    if ':' !in a.input.tenantId && ':' !in b.input.tenantId {
      SameKeyMeans(a, b);
    }
    i := ReturnedAtSomeStep(c, trace, steps, j, r, pair);
    DigestDecides(c, trace, steps, j, r, q);
  }

  lemma DigestDecides(c: Config, trace: seq<State>, steps: seq<Step>, j: nat, r: Id, q: Id)
    requires IsRun(c, trace, steps) && j < |trace| && r in trace[j].sessions && q in trace[j].sessions
    ensures NoCollision(c, trace[j]) ==>
              (Digest(c, trace[j].sessions[r].req) == Digest(c, trace[j].sessions[q].req)
               <==> SameContent(trace[j].sessions[r].req.input, trace[j].sessions[q].req.input))
  {
    hide Apply, Fingerprint, Canonical, SameContent;
    RequestsValid(c, trace, steps, j, r);
    RequestsValid(c, trace, steps, j, q);
    if NoCollision(c, trace[j]) {
      FingerprintIff(c.sha, trace[j].sessions[r].req.input, trace[j].sessions[q].req.input);
    }
  }

  lemma InspectJudges(c: Config, trace: seq<State>, steps: seq<Step>, j: nat, q: Id)
    requires ValidConfig(c) && Steps(c, trace, steps) && j < |steps| && steps[j] == Inspect(q)
    ensures q in trace[j].sessions && q in trace[j + 1].sessions
    ensures trace[j + 1].sessions[q].phase == Done(Judge(c, trace[j].sessions[q].req, trace[j].db, trace[j].now))
  {
    hide Judge;
    assert trace[j + 1] == Apply(c, trace[j], steps[j]);
  }

  /**
    A request that reads a live fingerprinted record is answered by content alone: the recorded pair
    if its content is that of the request which produced the record, FailedPrecondition if not.
   */
  lemma ReplyByContent(
      c: Config, trace: seq<State>, steps: seq<Step>, j: nat, q: Id, pair: TokenPair, f: string)
    returns (r: Id)
    requires IsRun(c, trace, steps) && j < |steps| && steps[j] == Inspect(q) && NoCollision(c, trace[j])
    requires var key := Key(trace[j].sessions[q].req);
             Live(trace[j].db, key, trace[j].now) && Resolve(trace[j].db[key].value) == Completed(pair, f) && f != ""
    ensures Returned(trace[j], r, pair)
    ensures ReplyOf(trace[j + 1].sessions[q].phase.outcome)
         == if SameContent(trace[j].sessions[r].req.input, trace[j].sessions[q].req.input)
            then Success(pair) else Failure(FailedPrecondition)
  {
    hide Apply, Key, Resolve, Returned, SameContent, Backed, Digest;
    SoundRun(c, trace, steps, j);
    var key := Key(trace[j].sessions[q].req);
    assert RecordBacked(c, trace[j], key, trace[j].db[key].value);
    r := BackedWitness(c, trace[j], key, pair, f);
    DigestDecides(c, trace, steps, j, r, q);
    InspectJudges(c, trace, steps, j, q);
  }
}
