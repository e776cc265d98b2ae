/**
  The idempotency interceptor (internal/interceptor/idempotency.go) and the Redis store under it
  (internal/store/redis.go) as they are written: objects whose methods update them. Between any two
  store calls other requests and the clock may take any number of steps.
 */
module IdempotencyInterceptor {
  import opened Wrappers
  import opened Sequences
  import opened Grpc
  import opened TokenPairWire
  import opened IdempotencyRecord
  import opened RequestFingerprint
  import opened RedisStore
  import opened IdempotencyProtocol
  import opened IdempotencyRuns
  import opened StoreKeys
  import opened TokenManagers
  import opened TokenHandlers

  datatype StoreError = StoreError

  /** What the store answered to one call. */
  datatype StoreAnswer =
    | GetAnswer(key: string, got: Result<Option<string>, StoreError>)
    | SetNXAnswer(key: string, value: string, won: Result<bool, StoreError>)
    | SetAnswer(key: string, value: string, ok: bool)

  /**
    ttl applies to Set and pendingTTL to SetNX. net says which calls, by number, Redis answers in time;
    a call it does not answer fails, and may have been carried out all the same.
   */
  class RedisIdempotencyStore {
    const ttl: int
    const pendingTTL: int
    const net: nat -> bool
    var db: Db
    var now: int                      // Redis's clock
    var answers: seq<StoreAnswer>     // what this object answered, in order

    constructor (ttl: int, pendingTTL: int, net: nat -> bool, db: Db, now: int)
      ensures this.ttl == ttl && this.pendingTTL == pendingTTL && this.net == net
      ensures this.db == db && this.now == now && answers == []
    {
      this.ttl, this.pendingTTL, this.net, this.db, this.now, answers := ttl, pendingTTL, net, db, now, [];
    }

    method Get(key: string) returns (r: Result<Option<string>, StoreError>)
      modifies this`answers
      ensures r.Success? <==> net(|old(answers)|)
      ensures r.Success? ==> r.value == if Live(db, key, now) then Some(db[key].value) else None
      ensures answers == old(answers) + [GetAnswer(key, r)]
    {
      var works := net(|answers|);
      r := if !works then Failure(StoreError) else Success(if Live(db, key, now) then Some(db[key].value) else None);
      answers := answers + [GetAnswer(key, r)];
    }

    method SetNX(key: string, value: string) returns (r: Result<bool, StoreError>, ghost written: bool)
      modifies this`db, this`answers
      ensures r.Success? <==> net(|old(answers)|)
      ensures r.Success? ==> written && r.value == !Live(old(db), key, now)
      ensures db == if written then PutIfAbsent(old(db), key, value, now, pendingTTL) else old(db)
      ensures answers == old(answers) + [SetNXAnswer(key, value, r)]
    {
      var works, reached: bool := net(|answers|), *;
      written := works || reached;
      r := if works then Success(!Live(db, key, now)) else Failure(StoreError);
      if works || reached { db := PutIfAbsent(db, key, value, now, pendingTTL); }
      answers := answers + [SetNXAnswer(key, value, r)];
    }

    method Set(key: string, value: string) returns (r: Result<(), StoreError>, ghost written: bool)
      modifies this`db, this`answers
      ensures r.Success? <==> net(|old(answers)|)
      ensures r.Success? ==> written
      ensures db == if written then Put(old(db), key, value, now + ttl) else old(db)
      ensures answers == old(answers) + [SetAnswer(key, value, r.Success?)]
    {
      var works, reached: bool := net(|answers|), *;
      written := works || reached;
      r := if works then Success(()) else Failure(StoreError);
      if works || reached { db := Put(db, key, value, now + ttl); }
      answers := answers + [SetAnswer(key, value, works)];
    }
  }

  // ----- what a keyed request does -----

  /** r's own steps, in order. */
  function OwnSteps(steps: seq<Step>, r: Id): seq<Step> {
    Filter(steps, (step: Step) => Actor(step) == Some(r))
  }

  lemma OwnStepsAppend(steps: seq<Step>, step: Step, r: Id)
    ensures OwnSteps(steps + [step], r) == OwnSteps(steps, r) + if Actor(step) == Some(r) then [step] else []
  {
    FilterAppend(steps, step, (step: Step) => Actor(step) == Some(r));
  }

  /**
    What the handler asked of the library and replied. A tenant that is not found gets that error and
    nothing is asked. Otherwise an OK reply is made of the answers, the pair just issued for exactly
    this request or the pair for which exactly the presented token was spent, and an error is the
    answer to the last call.
   */
  ghost predicate HandlerDid(
      input: Input, found: Result<(), Code>, calls: seq<LibraryCall>, now: int, result: Result<GoPair, Code>)
  {
    match found
    case Failure(e) => calls == [] && result == Failure(e)
    case Success(_) =>
      match input
      case IssueInput(sub, _, claims, audiences) => IssueDid(calls, sub, claims, audiences, now, result)
      case RefreshInput(token, _, claims) => RefreshDid(calls, token, claims, now, result)
  }

  /** The value a Get answered with, if it answered with one. */
  function ValueOf(got: Result<Option<string>, StoreError>): Option<string> {
    match got case Success(value) => value case Failure(_) => None
  }

  /** The claim is lost: one Get, whose answer decides the reply, one step, and no call of the handler. */
  ghost predicate LostPath(
      c: Config, own: seq<Step>, answers: seq<StoreAnswer>, calls: seq<LibraryCall>, r: Id, q: Request, o: Outcome)
    requires ValidConfig(c)
  {
    && calls == [] && !o.Ran? && |own| == |answers| == 1 && answers[0].GetAnswer? && answers[0].key == Key(q)
    && own[0] == (if answers[0].got.Failure? then InspectError(r) else Step.Inspect(r))
    && ToldBy(c, q, ValueOf(answers[0].got), ReplyOf(o))
  }

  /** The claim is won: the handler runs, and only an OK result is promoted, with one Set of its record. */
  ghost predicate WonPath(
      c: Config, own: seq<Step>, answers: seq<StoreAnswer>, calls: seq<LibraryCall>,
      r: Id, q: Request, found: Result<(), Code>, now: int, o: Outcome)
    requires ValidConfig(c)
  {
    && o.Ran? && HandlerDid(q.input, found, calls, now, o.result) && ReplyOf(o) == o.result
    && |own| >= 1 && own[0] == Finish(r, o.result)
    && match o.result
       case Failure(_) => |own| == 1 && answers == []
       case Success(pair) => PromotePath(c, own[1..], answers, r, q, pair)
  }

  ghost predicate PromotePath(c: Config, own: seq<Step>, answers: seq<StoreAnswer>, r: Id, q: Request, pair: GoPair)
    requires ValidConfig(c)
  {
    && |own| == 1 && own[0].Promote? && own[0].r == r
    && match CompletedValue(c, q, pair)
       case None => answers == [] && !own[0].written
       case Some(value) =>
         && |answers| == 1 && answers[0].SetAnswer? && answers[0].key == Key(q) && answers[0].value == value
         && (answers[0].ok ==> own[0].written)
  }

  /** The whole keyed path: its steps are what the store and the handler answered, and they decide the outcome. */
  ghost predicate KeyedPath(
      c: Config, own: seq<Step>, answers: seq<StoreAnswer>, calls: seq<LibraryCall>,
      r: Id, q: Request, found: Result<(), Code>, now: int, o: Outcome)
    requires ValidConfig(c)
  {
    && |own| >= 2 && |answers| >= 1 && own[0] == Arrive(r, q)
    && answers[0].SetNXAnswer? && answers[0] == SetNXAnswer(Key(q), PENDING_RECORD, answers[0].won)
    && NamesRequest(answers[0].key, q)
    && (if answers[0].won.Failure? then own[1].ClaimError? && own[1].r == r else own[1] == Step.Claim(r))
    && (if answers[0].won == Success(false) then LostPath(c, own[2..], answers[1..], calls, r, q, o)
        else WonPath(c, own[2..], answers[1..], calls, r, q, found, now, o))
  }

  class Interceptor {
    const c: Config
    const st: RedisIdempotencyStore
    var counters: Counters
    var sessions: map<Id, Session>   // every keyed request so far and how far it has got

    ghost var trace: seq<State>      // the history, ending in the present
    ghost var steps: seq<Step>

    ghost function Present(): State
      reads this, st
    {
      State(st.now, st.db, sessions, counters)
    }

    ghost predicate Valid()
      reads this, st
    {
      ValidConfig(c) && IsRun(c, trace, steps) && trace[|steps|] == Present() && st.ttl == c.ttl && st.pendingTTL == c.pendingTTL
    }

    constructor (c: Config, st: RedisIdempotencyStore)
      requires ValidConfig(c) && st.ttl == c.ttl && st.pendingTTL == c.pendingTTL
      requires forall k :: k in st.db ==> Unfingerprinted(st.db[k].value)
      ensures Valid() && this.c == c && this.st == st && sessions == map[] && steps == []
    {
      this.c, this.st, counters, sessions := c, st, map[], map[];
      trace, steps := [State(st.now, st.db, map[], map[])], [];
    }

    /** The history only grows, and what it gains since then are these steps. */
    twostate predicate Grew()
      reads this
    {
      old(trace) <= trace && old(steps) <= steps
    }

    /** Puts the step just taken into the history. */
    ghost method Log(step: Step)
      requires IsRun(c, trace, steps) && Enabled(trace[|steps|], step)
      requires Present() == Apply(c, trace[|steps|], step) && st.ttl == c.ttl && st.pendingTTL == c.pendingTTL
      modifies this`trace, this`steps
      ensures Valid() && steps == old(steps) + [step] && trace == old(trace) + [Present()]
      ensures forall r: Id :: OwnSteps(steps, r) == OwnSteps(old(steps), r) + if Actor(step) == Some(r) then [step] else []
    {
      hide Apply, Enabled, OwnSteps;
      forall r: Id ensures OwnSteps(steps + [step], r) == OwnSteps(steps, r) + if Actor(step) == Some(r) then [step] else [] {
        OwnStepsAppend(steps, step, r);
      }
      trace, steps := Extend(c, trace, steps, step);
    }

    /** Moves r on to the next phase. */
    method Enter(r: Id, p: Phase)
      requires r in sessions
      modifies this`sessions
      ensures sessions == old(sessions)[r := old(sessions[r]).(phase := p)]
    {
      sessions := sessions[r := sessions[r].(phase := p)];
    }

    /** Ends r and counts its outcome. */
    method Finally(r: Id, o: Outcome)
      requires r in sessions
      modifies this`sessions, this`counters
      ensures old(Present()).sessions == old(sessions)
      ensures Present().(now := 0, db := map[]) == End(old(Present()), r, o).(now := 0, db := map[])
    {
      var rpc := sessions[r].req.input.Method();
      var l := LabelOf(o);
      if l.Some? {
        counters := counters[(rpc, l.value) := CountOf(counters, rpc, l.value) + 1];
      }
      Enter(r, Done(o));
    }

    /** Any number of steps of the clock and of requests other than r, which may use the tenant's manager too. */
    method Interfere(r: Id, h: TokenHandler, tenantId: string)
      requires Valid() && r in sessions && h.ManagersValid()
      modifies this, st`db, st`now, h.ManagerOf(tenantId)
      ensures Valid() && Grew() && OwnSteps(steps, r) == OwnSteps(old(steps), r)
      ensures r in sessions && sessions[r] == old(sessions[r]) && old(st.now) <= st.now
      ensures h.ManagersValid() && h.Calls(tenantId) == old(h.Calls(tenantId))
    {
      h.Others(tenantId);
      OtherSteps(r);
    }

    method OtherSteps(r: Id)
      requires Valid() && r in sessions
      modifies this, st`db, st`now
      ensures Valid() && Grew() && OwnSteps(steps, r) == OwnSteps(old(steps), r)
      ensures r in sessions && sessions[r] == old(sessions[r]) && old(st.now) <= st.now
    {
      var n: nat := *;
      while n > 0
        invariant Valid() && Grew() && OwnSteps(steps, r) == OwnSteps(old(steps), r)
        invariant r in sessions && sessions[r] == old(sessions[r]) && old(st.now) <= st.now
      {
        hide IsRun, OwnSteps;
        n := n - 1;
        OtherStep(r);
      }
    }

    method OtherStep(r: Id)
      requires Valid() && r in sessions
      modifies this, st`db, st`now
      ensures Valid() && Grew() && OwnSteps(steps, r) == OwnSteps(old(steps), r)
      ensures r in sessions && sessions[r] == old(sessions[r]) && old(st.now) <= st.now
    {
      hide Apply, OwnSteps;
      var step: Step := *;
      var s := State(st.now, st.db, sessions, counters);
      if Enabled(s, step) && Actor(step) != Some(r) {
        StepFrame(c, s, step);
        var t := Apply(c, s, step);
        st.now, st.db, sessions, counters := t.now, t.db, t.sessions, t.counters;
        Log(step);
      }
    }

    // ----- the three store calls of a keyed request -----

    /** Claims the key with SetNX; a store error degrades open, as if the claim had been won. */
    method Claim(r: Id, key: string) returns (claimed: bool, ghost step: Step)
      requires Valid() && r in sessions && sessions[r].phase.Arrived? && key == Key(sessions[r].req)
      modifies this`sessions, this`trace, this`steps, st`db, st`answers
      ensures Valid() && Grew() && OwnSteps(steps, r) == OwnSteps(old(steps), r) + [step]
      ensures r in sessions && sessions[r].req == old(sessions[r].req)
      ensures sessions[r].phase == if claimed then Running(st.now) else Lost
      ensures exists won :: st.answers == old(st.answers) + [SetNXAnswer(key, PENDING_RECORD, won)]
                && claimed == (won != Success(false))
                && if won.Failure? then step.ClaimError? && step.r == r else step == Step.Claim(r)
    {
      hide Key, IsRun, Steps, OwnSteps;
      var answer, written := st.SetNX(key, PENDING_RECORD);
      if answer.Failure? {
        claimed := true;
      } else {
        claimed := answer.value;
      }
      Enter(r, if claimed then Running(st.now) else Lost);
      step := if answer.Failure? then Step.ClaimError(r, written) else Step.Claim(r);
      Log(step);
    }

    /** Reads the record that holds the key, and answers from it without calling the handler. */
    method Inspect(r: Id, key: string, fingerprint: string) returns (reply: Result<TokenPair, Code>, ghost step: Step)
      requires Valid() && r in sessions && sessions[r].phase.Lost?
      requires key == Key(sessions[r].req) && fingerprint == Digest(c, sessions[r].req)
      modifies this`sessions, this`counters, this`trace, this`steps, st`answers
      ensures Valid() && Grew() && OwnSteps(steps, r) == OwnSteps(old(steps), r) + [step]
      ensures r in sessions && sessions[r].req == old(sessions[r].req)
      ensures sessions[r].phase.Done? && reply == ReplyOf(sessions[r].phase.outcome) && !sessions[r].phase.outcome.Ran?
      ensures exists got :: st.answers == old(st.answers) + [GetAnswer(key, got)]
                && step == (if got.Failure? then InspectError(r) else Step.Inspect(r))
                && ToldBy(c, sessions[r].req, ValueOf(got), reply)
      ensures reply == Failure(Aborted) ==> counters == old(counters)
    {
      hide Key, IsRun, Steps, Resolve, Digest, Fingerprint, OwnSteps;
      ResolvePending();
      DigestIsFingerprint(c, sessions[r].req);
      var cached := st.Get(key);
      var outcome := InProgress;
      if cached.Success? && cached.value.Some? {
        match Resolve(cached.value.value) {
          case Completed(pair, stored) =>
            outcome := if stored != "" && stored != fingerprint then Mismatch else Hit(pair, stored);
          case _ =>
        }
      }
      reply := ReplyOf(outcome);
      Finally(r, outcome);
      step := if cached.Failure? then InspectError(r) else Step.Inspect(r);
      Log(step);
    }

    /** The handler came back: an error ends the request and leaves its claim to expire. */
    method Returned(r: Id, result: Result<GoPair, Code>)
      requires Valid() && r in sessions && sessions[r].phase.Running?
      modifies this`sessions, this`counters, this`trace, this`steps
      ensures Valid() && Grew() && OwnSteps(steps, r) == OwnSteps(old(steps), r) + [Finish(r, result)]
      ensures r in sessions && sessions[r].req == old(sessions[r].req)
      ensures sessions[r].phase == match result
                case Failure(e) => Done(Ran(result))
                case Success(pair) => Promoting(old(sessions[r].phase.since), pair)
    {
      hide Key, IsRun, Steps, OwnSteps;
      match result {
        case Failure(e) => Finally(r, Ran(result));
        case Success(pair) => Enter(r, Promoting(sessions[r].phase.since, pair));
      }
      Log(Finish(r, result));
    }

    /** Promotes the claim with Set; whether or not that works, the caller gets the pair. */
    method Promote(r: Id, key: string, fingerprint: string, pair: GoPair)
      returns (ghost own: seq<Step>, ghost answers: seq<StoreAnswer>)
      requires Valid() && r in sessions && sessions[r].phase.Promoting? && sessions[r].phase.pair == pair
      requires key == Key(sessions[r].req) && fingerprint == Digest(c, sessions[r].req)
      modifies this`sessions, this`counters, this`trace, this`steps, st`db, st`answers
      ensures Valid() && Grew() && OwnSteps(steps, r) == OwnSteps(old(steps), r) + own
      ensures st.answers == old(st.answers) + answers
      ensures PromotePath(c, own, answers, r, old(sessions[r].req), pair)
      ensures r in sessions && sessions[r].req == old(sessions[r].req)
      ensures sessions[r].phase == Done(Ran(Success(pair)))
    {
      hide Key, IsRun, Steps, Digest, Marshal, EncodeCompleted, OwnSteps;
      ghost var written := false;
      answers := [];
      var bytes := Marshal(pair);
      if bytes.Some? {
        MarshalIsBytes(pair);
        var value := EncodeCompleted(bytes.value, fingerprint);
        var ok, w := st.Set(key, value);
        written, answers := w, [SetAnswer(key, value, ok.Success?)];
      }
      Finally(r, Ran(Success(pair)));
      own := [Step.Promote(r, written)];
      Log(Step.Promote(r, written));
    }

    // ----- the interceptor -----

    /** The handler behind the interceptor. */
    method CallHandler(h: TokenHandler, input: Input, now: int)
      returns (reply: Result<GoPair, Code>, ghost calls: seq<LibraryCall>)
      requires h.ManagersValid()
      modifies h.ManagerOf(input.tenantId)
      ensures h.ManagersValid() && h.Calls(input.tenantId) == old(h.Calls(input.tenantId)) + calls
      ensures HandlerDid(input, h.Found(input.tenantId), calls, now, reply)
    {
      hide IssueDid, RefreshDid;
      match input {
        case IssueInput(sub, tenantId, claims, audiences) =>
          reply := h.IssueToken(sub, tenantId, claims, audiences, now);
        case RefreshInput(token, tenantId, claims) =>
          reply := h.RefreshToken(token, tenantId, claims, now);
      }
      calls := h.Calls(input.tenantId)[|old(h.Calls(input.tenantId))|..];
    }

    /** A new request reaches the claim. */
    method Arrived(r: Id, q: Request)
      requires Valid() && r !in sessions && ValidRequest(q)
      modifies this`sessions, this`trace, this`steps
      ensures Valid() && Grew() && OwnSteps(steps, r) == OwnSteps(old(steps), r) + [Arrive(r, q)]
      ensures sessions == old(sessions)[r := Session(q, Phase.Arrived)]
    {
      hide IsRun, Steps, ValidRequest, OwnSteps;
      sessions := sessions[r := Session(q, Phase.Arrived)];
      Log(Arrive(r, q));
    }

    /** Arrival and claim, with others at work before, between and after. */
    method ArriveAndClaim(r: Id, q: Request, key: string, h: TokenHandler)
      returns (claimed: bool, ghost step: Step, ghost won: Result<bool, StoreError>)
      requires Valid() && r !in sessions && ValidRequest(q) && key == Key(q) && h.ManagersValid()
      modifies this, st`db, st`now, st`answers, h.ManagerOf(q.input.tenantId)
      ensures Valid() && Grew() && old(st.now) <= st.now
      ensures h.ManagersValid() && h.Calls(q.input.tenantId) == old(h.Calls(q.input.tenantId))
      ensures r in sessions && sessions[r].req == q
      ensures if claimed then sessions[r].phase.Running? else sessions[r].phase.Lost?
      ensures OwnSteps(steps, r) == OwnSteps(old(steps), r) + [Arrive(r, q), step]
      ensures st.answers == old(st.answers) + [SetNXAnswer(key, PENDING_RECORD, won)] && claimed == (won != Success(false))
      ensures if won.Failure? then step.ClaimError? && step.r == r else step == Step.Claim(r)
    {
      hide IsRun, Steps, Key, ValidRequest, OwnSteps, Apply, Enabled;
      Arrived(r, q);
      Interfere(r, h, q.input.tenantId);
      claimed, step := Claim(r, key);
      won :| st.answers == old(st.answers) + [SetNXAnswer(key, PENDING_RECORD, won)] && claimed == (won != Success(false))
             && if won.Failure? then step.ClaimError? && step.r == r else step == Step.Claim(r);
      Interfere(r, h, q.input.tenantId);
    }

    /** The handler of a claim winner has returned: promote if it succeeded. */
    method Conclude(r: Id, key: string, fingerprint: string, reply: Result<GoPair, Code>, h: TokenHandler)
      returns (ghost own: seq<Step>, ghost answers: seq<StoreAnswer>)
      requires Valid() && r in sessions && sessions[r].phase.Running? && h.ManagersValid()
      requires key == Key(sessions[r].req) && fingerprint == Digest(c, sessions[r].req)
      modifies this, st`db, st`now, st`answers, h.ManagerOf(sessions[r].req.input.tenantId)
      ensures Valid() && Grew() && h.ManagersValid()
      ensures var tenantId := old(sessions[r].req.input.tenantId);
              h.Calls(tenantId) == old(h.Calls(sessions[r].req.input.tenantId))
      ensures r in sessions && sessions[r].req == old(sessions[r].req) && sessions[r].phase == Done(Ran(reply))
      ensures OwnSteps(steps, r) == OwnSteps(old(steps), r) + [Finish(r, reply)] + own
      ensures st.answers == old(st.answers) + answers
      ensures match reply
              case Failure(_) => own == [] && answers == []
              case Success(pair) => PromotePath(c, own, answers, r, old(sessions[r].req), pair)
    {
      hide IsRun, Steps, Key, Digest, Apply, Enabled, OwnSteps, PromotePath;
      var tenantId := sessions[r].req.input.tenantId;
      own, answers := [], [];
      Interfere(r, h, tenantId);
      Returned(r, reply);
      if reply.Success? {
        Interfere(r, h, tenantId);
        own, answers := Promote(r, key, fingerprint, reply.value);
      }
    }

    /** The claim is won: call the handler, then conclude. */
    method RunClaimed(r: Id, key: string, fingerprint: string, h: TokenHandler)
      returns (reply: Result<GoPair, Code>, ghost own: seq<Step>, ghost answers: seq<StoreAnswer>,
               ghost calls: seq<LibraryCall>, ghost at: int)
      requires Valid() && h.ManagersValid() && r in sessions && sessions[r].phase.Running?
      requires key == Key(sessions[r].req) && fingerprint == Digest(c, sessions[r].req)
      requires this !in h.Footprint() && st !in h.Footprint()
      modifies this, st`db, st`now, st`answers, h.ManagerOf(sessions[r].req.input.tenantId)
      ensures Valid() && h.ManagersValid() && Grew() && at == old(st.now)
      ensures r in sessions && sessions[r].req == old(sessions[r].req) && sessions[r].phase == Done(Ran(reply))
      ensures OwnSteps(steps, r) == OwnSteps(old(steps), r) + own && st.answers == old(st.answers) + answers
      ensures WonPath(c, own, answers, calls, r, sessions[r].req, h.Found(sessions[r].req.input.tenantId), at, Ran(reply))
      ensures var tenantId := sessions[r].req.input.tenantId;
              h.Calls(tenantId) == old(h.Calls(sessions[r].req.input.tenantId)) + calls
    {
      hide IsRun, Steps, Key, Digest, Apply, Enabled, OwnSteps, PromotePath, HandlerDid;
      var input := sessions[r].req.input;
      at := st.now;
      reply, calls := CallHandler(h, input, st.now);
      ghost var rest;
      rest, answers := Conclude(r, key, fingerprint, reply, h);
      own := [Finish(r, reply)] + rest;
      assert own[1..] == rest;
    }

    /** The keyed part of handleIssueTokenIdempotency and handleRefreshTokenIdempotency. */
    method HandleKeyed(r: Id, q: Request, h: TokenHandler)
      returns (reply: Result<TokenPair, Code>, ghost own: seq<Step>, ghost answers: seq<StoreAnswer>,
               ghost calls: seq<LibraryCall>, ghost at: int)
      requires Valid() && h.ManagersValid() && r !in sessions && ValidRequest(q)
      requires this !in h.Footprint() && st !in h.Footprint()
      modifies this, st`db, st`now, st`answers, h.ManagerOf(q.input.tenantId)
      ensures Valid() && h.ManagersValid() && Grew() && old(st.now) <= at
      ensures r in sessions && sessions[r].req == q
      ensures sessions[r].phase.Done? && reply == ReplyOf(sessions[r].phase.outcome)
      ensures OwnSteps(steps, r) == OwnSteps(old(steps), r) + own && st.answers == old(st.answers) + answers
      ensures h.Calls(q.input.tenantId) == old(h.Calls(q.input.tenantId)) + calls
      ensures KeyedPath(c, own, answers, calls, r, q, h.Found(q.input.tenantId), at, sessions[r].phase.outcome)
    {
      hide IsRun, Steps, Key, Digest, ValidRequest, ValidConfig, Apply, Enabled, OwnSteps, WonPath, LostPath, KeyedPath;
      var key, fingerprint := KeyAndFingerprint(q);
      var claimed;
      ghost var step, won;
      claimed, step, won := ArriveAndClaim(r, q, key, h);
      ghost var rest, more;
      reply, rest, more, calls, at := AnswerOrRun(r, key, fingerprint, claimed, h);
      own, answers := JoinPath(c, step, won, rest, more, calls, r, q, h.Found(q.input.tenantId), at, sessions[r].phase.outcome);
    }

    /** A request that lost the claim is answered from the record; one that won it calls the handler. */
    method AnswerOrRun(r: Id, key: string, fingerprint: string, claimed: bool, h: TokenHandler)
      returns (reply: Result<TokenPair, Code>, ghost own: seq<Step>, ghost answers: seq<StoreAnswer>,
               ghost calls: seq<LibraryCall>, ghost at: int)
      requires Valid() && h.ManagersValid() && r in sessions
      requires if claimed then sessions[r].phase.Running? else sessions[r].phase.Lost?
      requires key == Key(sessions[r].req) && fingerprint == Digest(c, sessions[r].req)
      requires this !in h.Footprint() && st !in h.Footprint()
      modifies this, st`db, st`now, st`answers, h.ManagerOf(sessions[r].req.input.tenantId)
      ensures Valid() && h.ManagersValid() && Grew() && at == old(st.now)
      ensures r in sessions && sessions[r].req == old(sessions[r].req)
      ensures sessions[r].phase.Done? && reply == ReplyOf(sessions[r].phase.outcome)
      ensures OwnSteps(steps, r) == OwnSteps(old(steps), r) + own && st.answers == old(st.answers) + answers
      ensures if claimed
              then WonPath(c, own, answers, calls, r, sessions[r].req, h.Found(sessions[r].req.input.tenantId), at,
                           sessions[r].phase.outcome)
              else LostPath(c, own, answers, calls, r, sessions[r].req, sessions[r].phase.outcome)
      ensures claimed <==> sessions[r].phase.outcome.Ran?
      ensures var tenantId := sessions[r].req.input.tenantId;
              h.Calls(tenantId) == old(h.Calls(sessions[r].req.input.tenantId)) + calls
    {
      hide IsRun, Steps, Key, Digest, Apply, Enabled, OwnSteps, WonPath, LostPath;
      if claimed {
        var result;
        result, own, answers, calls, at := RunClaimed(r, key, fingerprint, h);
        reply := result;
      } else {
        ghost var look;
        reply, look := Inspect(r, key, fingerprint);
        own, answers, calls, at := [look], st.answers[|old(st.answers)|..], [], st.now;
        ShowLost(c, own, answers, r, sessions[r].req, sessions[r].phase.outcome);
      }
    }

    method KeyAndFingerprint(q: Request) returns (key: string, fingerprint: string)
      requires Valid()
      ensures key == Key(q) && fingerprint == Digest(c, q)
    {
      key := Key(q);
      fingerprint := Digest(c, q);
    }

    /**
      handleIssueTokenIdempotency and handleRefreshTokenIdempotency, which are the same code for their
      two RPCs: guards, the client key, and the keyed part. Whatever is refused touches nothing; what
      is passed through is answered by the handler and touches neither store nor history.
     */
    method Handle(r: Id, input: Input, headerKey: string, fieldKey: string, h: TokenHandler)
      returns (reply: Result<TokenPair, Code>, ghost own: seq<Step>, ghost answers: seq<StoreAnswer>,
               ghost calls: seq<LibraryCall>, ghost at: int)
      requires Valid() && h.ManagersValid() && r !in sessions && ValidInput(input)
      requires this !in h.Footprint() && st !in h.Footprint()
      modifies this, st`db, st`now, st`answers, h.ManagerOf(input.tenantId)
      ensures Valid() && h.ManagersValid() && Grew() && old(st.now) <= at
      ensures h.Calls(input.tenantId) == old(h.Calls(input.tenantId)) + calls
      ensures !IsKeyed(input, headerKey, fieldKey) ==> unchanged(this) && unchanged(st)
      ensures input.tenantId == "" ==> reply == Failure(Internal) && calls == []
      ensures input.tenantId != "" && ResolveClientKey(headerKey, fieldKey) == None ==>
                reply == Failure(InvalidArgument) && calls == []
      ensures input.tenantId != "" && ResolveClientKey(headerKey, fieldKey) == Some("") ==>
                HandlerReplied(input, h.Found(input.tenantId), calls, at, reply)
      ensures IsKeyed(input, headerKey, fieldKey) ==>
                var q := Request(input, ResolveClientKey(headerKey, fieldKey).value);
                && r in sessions && sessions[r].req == q
                && sessions[r].phase.Done? && reply == ReplyOf(sessions[r].phase.outcome)
                && OwnSteps(steps, r) == OwnSteps(old(steps), r) + own && st.answers == old(st.answers) + answers
                && KeyedPath(c, own, answers, calls, r, q, h.Found(q.input.tenantId), at, sessions[r].phase.outcome)
    {
      hide IsRun, Steps, KeyedPath, HandlerDid, OwnSteps, ReplyOf;
      own, answers, calls, at := [], [], [], st.now;
      if input.tenantId == "" { return Failure(Internal), own, answers, calls, at; }
      var clientKey := ResolveClientKey(headerKey, fieldKey);
      if clientKey.None? { return Failure(InvalidArgument), own, answers, calls, at; }
      if clientKey.value == "" {
        var result;
        result, calls := CallHandler(h, input, st.now);
        reply := result;
        return;
      }
      reply, own, answers, calls, at := HandleKeyed(r, Request(input, clientKey.value), h);
    }
  }

  lemma ShowLost(c: Config, own: seq<Step>, answers: seq<StoreAnswer>, r: Id, q: Request, o: Outcome)
    requires ValidConfig(c) && !o.Ran? && |own| == |answers| == 1
    requires exists got :: answers == [GetAnswer(Key(q), got)] && own[0] == (if got.Failure? then InspectError(r) else Step.Inspect(r))
               && ToldBy(c, q, ValueOf(got), ReplyOf(o))
    ensures LostPath(c, own, answers, [], r, q, o)
  {
    hide Key, ToldBy, ReplyOf;
  }

  lemma JoinPath(
      c: Config, step: Step, won: Result<bool, StoreError>, rest: seq<Step>, more: seq<StoreAnswer>, calls: seq<LibraryCall>,
      r: Id, q: Request, found: Result<(), Code>, now: int, o: Outcome)
    returns (own: seq<Step>, answers: seq<StoreAnswer>)
    requires ValidConfig(c) && if won.Failure? then step.ClaimError? && step.r == r else step == Step.Claim(r)
    requires if won == Success(false) then LostPath(c, rest, more, calls, r, q, o)
             else WonPath(c, rest, more, calls, r, q, found, now, o)
    ensures own == [Arrive(r, q), step] + rest && answers == [SetNXAnswer(Key(q), PENDING_RECORD, won)] + more
    ensures KeyedPath(c, own, answers, calls, r, q, found, now, o)
  {
    hide Key, NamesRequest, LostPath, WonPath;
    KeyNamesRequest(q);
    own, answers := [Arrive(r, q), step] + rest, [SetNXAnswer(Key(q), PENDING_RECORD, won)] + more;
    assert own[2..] == rest && answers[1..] == more;
  }

  /** On a keyed path the handler was called exactly if the outcome is its result, and then the result is what it did. */
  lemma PathMeans(
      c: Config, own: seq<Step>, answers: seq<StoreAnswer>, calls: seq<LibraryCall>,
      r: Id, q: Request, found: Result<(), Code>, now: int, o: Outcome)
    requires ValidConfig(c) && KeyedPath(c, own, answers, calls, r, q, found, now, o)
    ensures |answers| >= 1 && answers[0].SetNXAnswer? && NamesRequest(answers[0].key, q)
    ensures o.Ran? <==> answers[0].won != Success(false)
    ensures o.Ran? ==> ReplyOf(o) == o.result && HandlerDid(q.input, found, calls, now, o.result)
    ensures !o.Ran? ==>
              calls == [] && |answers| == 2 && answers[1].GetAnswer? && answers[1].key == answers[0].key
              && ToldBy(c, q, ValueOf(answers[1].got), ReplyOf(o))
  {
    hide Key, PromotePath, HandlerDid, NamesRequest, ToldBy, ReplyOf;
  }

  /** The reply is the handler's. */
  ghost predicate HandlerReplied(
      input: Input, found: Result<(), Code>, calls: seq<LibraryCall>, now: int, reply: Result<TokenPair, Code>)
  {
    exists result: Result<GoPair, Code> :: reply == result && HandlerDid(input, found, calls, now, result)
  }

  /** The request reaches the claim. */
  predicate IsKeyed(input: Input, headerKey: string, fieldKey: string) {
    input.tenantId != "" && ResolveClientKey(headerKey, fieldKey) !in {None, Some("")}
  }
}
