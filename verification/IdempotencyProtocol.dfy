/**
  The idempotency claim protocol (internal/interceptor/idempotency.go over internal/store/redis.go)
  as a transition system.

  Any number of keyed requests run at once. Each store call is one atomic step, and so is each
  tick of the clock; everything may interleave. A store call may fail, and a failed write may or
  may not have reached Redis.
 */
module IdempotencyProtocol {
  import opened Wrappers
  import opened Grpc
  import opened TokenPairWire
  import opened IdempotencyRecord
  import opened RequestFingerprint
  import opened RedisStore
  import StoreKeys

  /** ttl is the lifetime of a completed record, pendingTTL that of a claim. */
  datatype Config = Config(ttl: int, pendingTTL: int, sha: string -> string)

  ghost predicate ValidConfig(c: Config) {
    c.ttl > 0 && c.pendingTTL > 0 && IsDigest(c.sha)
  }

  /** A request that reached the claim: its content and its resolved, non-empty client key. */
  datatype Request = Request(input: Input, clientKey: string)

  predicate ValidRequest(q: Request) {
    q.clientKey != "" && q.input.tenantId != "" && ValidInput(q.input)
  }

  function Key(q: Request): string {
    StoreKeys.IdempotencyKey(q.input.tenantId, q.input.Method(), q.clientKey)
  }

  function Digest(c: Config, q: Request): (f: string)
    requires ValidConfig(c)
    ensures f != ""
  {
    Fingerprint(c.sha, q.input)
  }

  /** How a keyed request ended. */
  datatype Outcome =
    | Hit(pair: TokenPair, storedFingerprint: string)
    | Mismatch
    | InProgress
    | Ran(result: Result<GoPair, Code>)

  function ReplyOf(o: Outcome): Result<TokenPair, Code> {
    match o
    case Hit(pair, _) => Success(pair)
    case Mismatch => Failure(FailedPrecondition)
    case InProgress => Failure(Aborted)
    case Ran(result) => result
  }

  datatype Phase =
    | Arrived
    | Lost                                     // SetNX said the key exists; Get comes next
    | Running(since: int)                      // the handler is executing
    | Promoting(since: int, pair: GoPair)     // the handler returned pair; Set comes next
    | Done(outcome: Outcome)

  datatype Session = Session(req: Request, phase: Phase)

  datatype Label = HitLabel | MissLabel | MismatchLabel

  function LabelOf(o: Outcome): Option<Label> {
    match o
    case Hit(_, _) => Some(HitLabel)
    case Mismatch => Some(MismatchLabel)
    case InProgress => None
    case Ran(_) => Some(MissLabel)
  }

  type Counters = map<(Rpc, Label), nat>

  function CountOf(m: Counters, rpc: Rpc, l: Label): nat {
    if (rpc, l) in m then m[(rpc, l)] else 0
  }

  type Id = nat

  datatype State = State(now: int, db: Db, sessions: map<Id, Session>, counters: Counters)

  datatype Step =
    | Tick(d: nat)
    | Arrive(r: Id, req: Request)
    | Claim(r: Id)                                          // SetNX answers
    | ClaimError(r: Id, written: bool)                      // SetNX fails: the handler runs anyway
    | Inspect(r: Id)                                        // Get answers
    | InspectError(r: Id)                                   // Get fails
    | Finish(r: Id, result: Result<GoPair, Code>)           // the handler returns
    | Promote(r: Id, written: bool)                         // Set, successful or not

  /** A record no fingerprint protects: pending, unreadable, or completed before fingerprints existed. */
  predicate Unfingerprinted(value: string) {
    match Resolve(value)
    case Completed(_, f) => f == ""
    case _ => true
  }

  ghost predicate Init(s: State) {
    && s.sessions == map[] && s.counters == map[]
    && forall k :: k in s.db ==> Unfingerprinted(s.db[k].value)
  }

  /** The completed record for q, or None when the pair cannot be marshalled. */
  function CompletedValue(c: Config, q: Request, pair: GoPair): Option<string>
    requires ValidConfig(c)
  {
    match Marshal(pair)
    case None => None
    case Some(bytes) =>
      MarshalIsBytes(pair);
      Some(EncodeCompleted(bytes, Digest(c, q)))
  }

  function WithPhase(s: State, r: Id, p: Phase): State
    requires r in s.sessions
  {
    s.(sessions := s.sessions[r := s.sessions[r].(phase := p)])
  }

  /** Ends r with o and counts it. */
  function End(s: State, r: Id, o: Outcome): State
    requires r in s.sessions
  {
    var t := WithPhase(s, r, Done(o));
    match LabelOf(o)
    case None => t
    case Some(l) =>
      var rpc := s.sessions[r].req.input.Method();
      t.(counters := s.counters[(rpc, l) := CountOf(s.counters, rpc, l) + 1])
  }

  /** What a request that lost the claim makes of the record it reads. */
  function Judge(c: Config, q: Request, db: Db, now: int): Outcome
    requires ValidConfig(c)
  {
    if !Live(db, Key(q), now) then InProgress
    else match Resolve(db[Key(q)].value)
      case StillPending => InProgress
      case Unreadable(_) => InProgress
      case Completed(pair, f) => if f != "" && f != Digest(c, q) then Mismatch else Hit(pair, f)
  }

  predicate Enabled(s: State, step: Step) {
    match step
    case Tick(_) => true
    case Arrive(r, q) => r !in s.sessions && ValidRequest(q)
    case Claim(r) => r in s.sessions && s.sessions[r].phase.Arrived?
    case ClaimError(r, _) => r in s.sessions && s.sessions[r].phase.Arrived?
    case Inspect(r) => r in s.sessions && s.sessions[r].phase.Lost?
    case InspectError(r) => r in s.sessions && s.sessions[r].phase.Lost?
    case Finish(r, _) => r in s.sessions && s.sessions[r].phase.Running?
    case Promote(r, _) => r in s.sessions && s.sessions[r].phase.Promoting?
  }

  function Apply(c: Config, s: State, step: Step): State
    requires ValidConfig(c) && Enabled(s, step)
  {
    match step
    case Tick(d) => s.(now := s.now + d)
    case Arrive(r, q) => s.(sessions := s.sessions[r := Session(q, Arrived)])
    case Claim(r) =>
      var key := Key(s.sessions[r].req);
      if Live(s.db, key, s.now) then WithPhase(s, r, Lost)
      else WithPhase(s, r, Running(s.now)).(db := Put(s.db, key, PENDING_RECORD, s.now + c.pendingTTL))
    case ClaimError(r, written) =>
      var key := Key(s.sessions[r].req);
      WithPhase(s, r, Running(s.now)).(
        db := if written then PutIfAbsent(s.db, key, PENDING_RECORD, s.now, c.pendingTTL) else s.db)
    case Inspect(r) => End(s, r, Judge(c, s.sessions[r].req, s.db, s.now))
    case InspectError(r) => End(s, r, InProgress)
    case Finish(r, result) =>
      (match result
       case Failure(e) => End(s, r, Ran(Failure(e)))
       case Success(pair) => WithPhase(s, r, Promoting(s.sessions[r].phase.since, pair)))
    case Promote(r, written) =>
      var q, pair := s.sessions[r].req, s.sessions[r].phase.pair;
      var value := CompletedValue(c, q, pair);
      End(s, r, Ran(Success(pair))).(
        db := if written && value.Some? then Put(s.db, Key(q), value.value, s.now + c.ttl) else s.db)
  }

  /** The request a step belongs to. */
  function Actor(step: Step): Option<Id> {
    match step
    case Tick(_) => None
    case Arrive(r, _) => Some(r)
    case Claim(r) => Some(r)
    case ClaimError(r, _) => Some(r)
    case Inspect(r) => Some(r)
    case InspectError(r) => Some(r)
    case Finish(r, _) => Some(r)
    case Promote(r, _) => Some(r)
  }

  ghost predicate Steps(c: Config, trace: seq<State>, steps: seq<Step>)
    requires ValidConfig(c)
  {
    && |trace| == |steps| + 1
    && forall i :: 0 <= i < |steps| ==> Enabled(trace[i], steps[i]) && trace[i + 1] == Apply(c, trace[i], steps[i])
  }

  /** A run of the whole system from an initial state. */
  ghost predicate IsRun(c: Config, trace: seq<State>, steps: seq<Step>) {
    ValidConfig(c) && Steps(c, trace, steps) && Init(trace[0])
  }

  // ----- what a key names -----

  /** The key is that of tenant, RPC and client key, and none of the keys other parts of the service use. */
  ghost predicate NamesRequest(key: string, q: Request) {
    && key == "idempotency:" + q.input.tenantId + ":"
              + (if q.input.IssueInput? then "IssueToken" else "RefreshToken") + ":" + q.clientKey
    && forall u :: key !in {StoreKeys.RotationLockKey(u), StoreKeys.ReconciliationLockKey(u), StoreKeys.RotationStampKey(u)}
  }

  lemma KeyNamesRequest(q: Request)
    ensures NamesRequest(Key(q), q)
  {
    hide StoreKeys.IdempotencyKey, StoreKeys.RotationLockKey, StoreKeys.ReconciliationLockKey, StoreKeys.RotationStampKey;
    StoreKeys.KeyTexts(q.input.tenantId, q.input.Method(), q.clientKey);
    forall u
      ensures Key(q) !in {StoreKeys.RotationLockKey(u), StoreKeys.ReconciliationLockKey(u), StoreKeys.RotationStampKey(u)}
    {
      StoreKeys.FamiliesDisjoint(q.input.tenantId, q.input.Method(), q.clientKey, u);
    }
  }

  /** Two requests share a record only if they share tenant, RPC and client key, when tenants are free of ':'. */
  lemma SameKeyMeans(a: Request, b: Request)
    requires Key(a) == Key(b) && ':' !in a.input.tenantId && ':' !in b.input.tenantId
    ensures a.input.tenantId == b.input.tenantId && a.clientKey == b.clientKey
    ensures a.input.IssueInput? <==> b.input.IssueInput?
  {
    StoreKeys.IdempotencyKeyInjective(
      a.input.tenantId, a.input.Method(), a.clientKey, b.input.tenantId, b.input.Method(), b.clientKey);
  }

  // ----- what a reader is told -----

  /** What a request that lost the claim is told, by the value Get gave it, or None when there was none. */
  ghost predicate ToldBy(c: Config, q: Request, value: Option<string>, reply: Result<TokenPair, Code>)
    requires ValidConfig(c)
  {
    && (value == None ==> reply == Failure(Aborted))
    && (value == Some(PENDING_RECORD) ==> reply == Failure(Aborted))
    && (value.Some? ==>
          match Resolve(value.value)
          case Completed(pair, f) =>
            reply == if f == "" || f == Fingerprint(c.sha, q.input) then Success(pair) else Failure(FailedPrecondition)
          case _ => reply == Failure(Aborted))
  }

  /** A read ends the request with what the live record says; a claim that is still pending, or none, means Aborted. */
  lemma ReadReplies(c: Config, s: State, r: Id)
    requires ValidConfig(c) && Enabled(s, Inspect(r))
    ensures var t, q := Apply(c, s, Inspect(r)), s.sessions[r].req;
            && r in t.sessions && t.sessions[r].req == q && t.sessions[r].phase.Done? && !t.sessions[r].phase.outcome.Ran?
            && t.db == s.db
            && ToldBy(c, q, if Live(s.db, Key(q), s.now) then Some(s.db[Key(q)].value) else None, ReplyOf(t.sessions[r].phase.outcome))
            && (ReplyOf(t.sessions[r].phase.outcome) == Failure(Aborted) ==> t.counters == s.counters)
  {
    hide Key, Judge, ToldBy;
    JudgeReplies(c, s.sessions[r].req, s.db, s.now);
  }

  lemma JudgeReplies(c: Config, q: Request, db: Db, now: int)
    requires ValidConfig(c)
    ensures ToldBy(c, q, if Live(db, Key(q), now) then Some(db[Key(q)].value) else None, ReplyOf(Judge(c, q, db, now)))
    ensures !Judge(c, q, db, now).Ran?
  {
    hide Key, Resolve, Digest, Fingerprint;
    ResolvePending();
    DigestIsFingerprint(c, q);
  }

  /** A read that fails means Aborted too, and is not counted. */
  lemma FailedReadReplies(c: Config, s: State, r: Id)
    requires ValidConfig(c) && Enabled(s, InspectError(r))
    ensures var t := Apply(c, s, InspectError(r));
            && r in t.sessions && t.sessions[r].phase.Done? && t.db == s.db
            && ReplyOf(t.sessions[r].phase.outcome) == Failure(Aborted) && t.counters == s.counters
  {
    hide Key;
  }

  lemma DigestIsFingerprint(c: Config, q: Request)
    requires ValidConfig(c)
    ensures Digest(c, q) == Fingerprint(c.sha, q.input)
  {
    hide Fingerprint;
  }

  // ----- what records read as -----

  lemma CompletedValueResolves(c: Config, q: Request, pair: GoPair)
    requires ValidConfig(c) && CompletedValue(c, q, pair).Some?
    ensures Resolve(CompletedValue(c, q, pair).value) == Completed(pair, Digest(c, q))
  {
    hide Resolve, Marshal;
    ResolveCompleted(pair, Digest(c, q));
  }
}
