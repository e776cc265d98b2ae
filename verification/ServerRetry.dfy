/** A keyed request and its retry as a client of the server sees them, through the whole chain. */
module ServerRetry {
  import opened Wrappers
  import Grpc
  import opened IdempotencyRuns
  import opened TokenPairWire
  import opened RequestFingerprint
  import opened IdempotencyProtocol
  import opened IdempotencyInterceptor
  import opened StoreKeys
  import opened TokenManagers
  import opened TokenHandlers
  import opened RefreshRetry
  import opened RequestChain
  import opened CallerRegistry
  import R = RevocationProtocol

  /** The request with its client key, whether that came in the header, the field or both. */
  ghost predicate Carries(req: AnyRequest, input: Input, clientKey: string) {
    req.Keyed? && req.input == input && ResolveClientKey(req.headerKey, req.fieldKey) == Some(clientKey)
  }

  /** An ID no RPC has had. */
  method NewRpc(s: Server) returns (r: Id)
    ensures r !in s.idempotency.sessions && r !in s.handler.ledger.rpcs
  {
    FreshIdExists(s.idempotency.sessions.Keys + s.handler.ledger.rpcs.Keys);
    r :| r !in s.idempotency.sessions.Keys + s.handler.ledger.rpcs.Keys;
  }

  /** One keyed request through the server, and what its reply and the library calls behind it are. */
  method ServeKeyed(s: Server, r: Id, identity: string, req: AnyRequest, input: Input, clientKey: string, now: int)
    returns (reply: AnyReply, ghost calls: seq<LibraryCall>, ghost at: int)
    requires s.Valid() && r !in s.idempotency.sessions && r !in s.handler.ledger.rpcs
    requires Carries(req, input, clientKey) && clientKey != "" && ValidInput(input)
    requires Admissible(s.config.callers, identity, req)
    modifies s.idempotency, s.idempotency.st`db, s.idempotency.st`now, s.idempotency.st`answers
    modifies s.handler.ledger, s.handler.ledger.journal, s.handler.ledger.audit, s.handler.ManagerOf(input.tenantId)
    ensures s.Valid() && s.idempotency.Grew()
    ensures s.handler.Calls(input.tenantId) == old(s.handler.Calls(input.tenantId)) + calls
    ensures r in s.idempotency.sessions && s.idempotency.sessions[r].req == Request(input, clientKey)
    ensures s.idempotency.sessions[r].phase.Done?
    ensures var o := s.idempotency.sessions[r].phase.outcome;
            && Conveys(reply, ReplyOf(o))
            && (!o.Ran? ==> calls == [])
            && (o.Ran? ==> HandlerDid(input, s.handler.Found(input.tenantId), calls, at, o.result))
  {
    hide Admissible, KeyedPath, HandlerDid, Conveys, OwnSteps, IsRun, R.IsRun, ValidInput;
    reply, calls, at := s.Serve(r, identity, req, now);
    ghost var x := s.idempotency;
    ghost var q, answers := Request(input, clientKey), x.st.answers[|old(x.st.answers)|..];
    ghost var own :|
      KeyedPath(x.c, own, answers, calls, r, q, s.handler.Found(input.tenantId), at, x.sessions[r].phase.outcome);
    PathMeans(x.c, own, answers, calls, r, q, s.handler.Found(input.tenantId), at, x.sessions[r].phase.outcome);
  }

  /**
    A client sends a keyed request and, whatever it heard, sends it again, under the same client key
    but perhaps with it in the other place, and perhaps as another caller; other requests do what they
    like before, between and after. If the first one's record was stored and is protected, and the
    second met no Get error, the server's two replies are the same OK reply, the library is asked for
    nothing the second time, and a refresh spends its token exactly once.
   */
  method ServeTwice(
      s: Server, r1: Id, caller1: string, req1: AnyRequest, caller2: string, req2: AnyRequest,
      input: Input, clientKey: string, now1: int, now2: int)
    returns (first: AnyReply, second: AnyReply, ghost r2: Id)
    requires s.Valid() && r1 !in s.idempotency.sessions && r1 !in s.handler.ledger.rpcs
    requires Carries(req1, input, clientKey) && Carries(req2, input, clientKey) && clientKey != "" && ValidInput(input)
    requires Admissible(s.config.callers, caller1, req1) && Admissible(s.config.callers, caller2, req2)
    modifies s.idempotency, s.idempotency.st`db, s.idempotency.st`now, s.idempotency.st`answers
    modifies s.handler.ledger, s.handler.ledger.journal, s.handler.ledger.audit, s.handler.ManagerOf(input.tenantId)
    ensures s.Valid() && old(s.handler.Calls(input.tenantId)) <= s.handler.Calls(input.tenantId)
    ensures forall i, pair: GoPair ::
              StoredAndFresh(s.idempotency, i, r1, pair) && InspectError(r2) !in s.idempotency.steps ==>
                && first == PairReply(pair) && second == PairReply(pair)
                && (input.RefreshInput? ==> multiset(s.handler.Spent(input.tenantId))[input.refreshToken] == 1)
                && exists at :: HandlerDid(input, Success(()),
                     s.handler.Calls(input.tenantId)[|old(s.handler.Calls(input.tenantId))|..], at, Success(pair))
  {
    hide Admissible, HandlerDid, Conveys, OwnSteps, IsRun, R.IsRun, ValidInput, Protected, Carries, TableOf, ValidCallers, Distinct;
    ghost var calls1, at1, calls2, at2;
    ghost var x := s.idempotency;
    first, calls1, at1 := ServeKeyed(s, r1, caller1, req1, input, clientKey, now1);
    ghost var s1, midway, n, middle := x.sessions[r1], x.trace, |x.steps|, s.handler.Calls(input.tenantId);
    RunShape(x.c, x.trace, x.steps);
    var fresh2 := NewRpc(s);
    r2 := fresh2;
    second, calls2, at2 := ServeKeyed(s, fresh2, caller2, req2, input, clientKey, now2);
    forall i, pair: GoPair | StoredAndFresh(x, i, r1, pair) && InspectError(r2) !in x.steps
      ensures first == PairReply(pair) && second == PairReply(pair)
      ensures input.RefreshInput? ==> multiset(s.handler.Spent(input.tenantId))[input.refreshToken] == 1
      ensures exists at :: HandlerDid(input, Success(()),
                s.handler.Calls(input.tenantId)[|old(s.handler.Calls(input.tenantId))|..], at, Success(pair))
    {
      assert x.trace[n] == midway[n] && midway[n].sessions[r1] == s1;
      RetryOutcome(x.c, x.trace, x.steps, n, r1, r2, Request(input, clientKey), i, pair);
      assert s.handler.Calls(input.tenantId) == middle;
      assert middle[|old(s.handler.Calls(input.tenantId))|..] == calls1;
      OkMeansFound(input, s.handler.Found(input.tenantId), calls1, at1, pair);
      ConveysPair(first, pair);
      ConveysPair(second, pair);
      if input.RefreshInput? {
        SpentByCall(s.handler, input, |old(s.handler.Calls(input.tenantId))|, at1, pair);
      }
    }
  }

  lemma ConveysPair(reply: AnyReply, pair: TokenPair)
    requires Conveys(reply, Success(pair))
    ensures reply == PairReply(pair)
  {
  }

  lemma OkMeansFound(input: Input, found: Result<(), Grpc.Code>, calls: seq<LibraryCall>, at: int, pair: GoPair)
    requires HandlerDid(input, found, calls, at, Success(pair))
    ensures HandlerDid(input, Success(()), calls, at, Success(pair))
  {
    hide IssueDid, RefreshDid;
  }

  lemma SpentByCall(h: TokenHandler, input: Input, n: nat, at: int, pair: GoPair)
    requires h.ManagersValid() && n <= |h.Calls(input.tenantId)| && input.RefreshInput?
    requires HandlerDid(input, Success(()), h.Calls(input.tenantId)[n..], at, Success(pair))
    ensures multiset(h.Spent(input.tenantId))[input.refreshToken] == 1
  {
    hide RefreshedFrom;
    SpentOnce(h, input.tenantId, n, input.refreshToken, input.claims, at, pair);
  }
}
