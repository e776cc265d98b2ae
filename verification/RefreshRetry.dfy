/**
  A keyed RefreshToken and its retry, through the interceptor, the RefreshToken handler and the
  token manager: the client's side of the ordering constraint that the claim comes before the
  library call.
 */
module RefreshRetry {
  import opened Wrappers
  import opened Grpc
  import opened TokenPairWire
  import opened RequestFingerprint
  import opened IdempotencyProtocol
  import opened IdempotencyRuns
  import opened IdempotencyInterceptor
  import opened TokenManagers
  import opened TokenHandlers

  lemma DoneStaysStep(c: Config, s: State, step: Step, r: Id)
    requires ValidConfig(c) && Enabled(s, step) && r in s.sessions && s.sessions[r].phase.Done?
    ensures r in Apply(c, s, step).sessions && Apply(c, s, step).sessions[r] == s.sessions[r]
  {
    hide Key, Judge, CompletedValue;
  }

  lemma {:induction false} DoneStays(c: Config, trace: seq<State>, steps: seq<Step>, i: nat, j: nat, r: Id)
    requires ValidConfig(c) && Steps(c, trace, steps) && i <= j < |trace|
    requires r in trace[i].sessions && trace[i].sessions[r].phase.Done?
    ensures r in trace[j].sessions && trace[j].sessions[r] == trace[i].sessions[r]
  {
    hide Apply;
    if i < j {
      DoneStays(c, trace, steps, i, j - 1, r);
      DoneStaysStep(c, trace[j - 1], steps[j - 1], r);
    }
  }

  lemma PromoteEnds(c: Config, s: State, r: Id, written: bool)
    requires ValidConfig(c) && Enabled(s, Promote(r, written))
    ensures var t := Apply(c, s, Promote(r, written));
            r in t.sessions && t.sessions[r] == Session(s.sessions[r].req, Done(Ran(Success(s.sessions[r].phase.pair))))
  {
    hide Key, CompletedValue;
  }

  /** The request whose record a step stores is answered OK with that pair, for good. */
  lemma StoredIsAnswered(c: Config, trace: seq<State>, steps: seq<Step>, i: nat, r: Id, pair: GoPair, j: nat)
    requires ValidConfig(c) && Steps(c, trace, steps) && Stores(c, trace, steps, i, r, pair) && i < j < |trace|
    ensures r in trace[j].sessions && trace[j].sessions[r] == Session(trace[i].sessions[r].req, Done(Ran(Success(pair))))
  {
    hide Apply;
    PromoteEnds(c, trace[i], r, true);
    DoneStays(c, trace, steps, i + 1, j, r);
  }

  /** A pending request's record cannot have been stored yet. */
  lemma StoredBefore(c: Config, trace: seq<State>, steps: seq<Step>, i: nat, r: Id, pair: GoPair, n: nat)
    requires ValidConfig(c) && Steps(c, trace, steps) && Stores(c, trace, steps, i, r, pair) && n < |trace|
    requires r in trace[n].sessions && trace[n].sessions[r].phase.Done?
    ensures i < n
  {
    hide Apply;
    if n <= i {
      DoneStays(c, trace, steps, n, i, r);
    }
  }

  lemma {:induction false} FreshIdExists(s: set<nat>)
    ensures exists n: nat :: n !in s
  {
    var n := AboveAll(s);
    assert n !in s;
  }

  ghost function AboveAll(s: set<nat>): (n: nat)
    ensures forall x :: x in s ==> x < n
  {
    if s == {} then 0 else
      var x :| x in s;
      assert forall y :: y in s ==> y == x || y in s - {x};
      var n := AboveAll(s - {x});
      if n > x then n else x + 1
  }

  /** From step n on r2 is new and repeats what r1, answered by then, had asked: it gets r1's stored pair. */
  lemma RetryOutcome(
      c: Config, trace: seq<State>, steps: seq<Step>, n: nat, r1: Id, r2: Id, q: Request, i: nat, pair: GoPair)
    requires IsRun(c, trace, steps) && Protected(c, trace, steps, i, r1, pair, |steps|) && n <= |steps|
    requires r1 in trace[n].sessions && trace[n].sessions[r1].req == q && trace[n].sessions[r1].phase.Done?
    requires r2 !in trace[n].sessions && InspectError(r2) !in steps
    requires r2 in trace[|steps|].sessions && trace[|steps|].sessions[r2].req == q && trace[|steps|].sessions[r2].phase.Done?
    ensures trace[n].sessions[r1].phase == Done(Ran(Success(pair)))
    ensures ReplyOf(trace[|steps|].sessions[r2].phase.outcome) == Success(pair)
    ensures !trace[|steps|].sessions[r2].phase.outcome.Ran?
  {
    hide Apply;
    StoredBefore(c, trace, steps, i, r1, pair, n);
    StoredIsAnswered(c, trace, steps, i, r1, pair, n);
    if r2 in trace[i + 1].sessions {
      RequestFixed(c, trace, steps, i + 1, n, r2);
      assert false;
    }
    SameIsSame(q.input);
    RetryIsTransparent(c, trace, steps, i, r1, pair, |steps|, r2);
    assert !HasRun(trace[|steps|], r2);
  }

  lemma SameIsSame(i: Input)
    ensures SameContent(i, i)
  {
  }

  /** r's record was stored at step i, and is protected up to now. */
  ghost predicate StoredAndFresh(x: Interceptor, i: nat, r: Id, pair: GoPair)
    reads x, x.st
    requires x.Valid()
  {
    Protected(x.c, x.trace, x.steps, i, r, pair, |x.steps|)
  }

  /**
    A request that repeats r1, which has been answered. If r1's record was stored and is protected, and
    the repeat meets no Get error, it is answered with exactly r1's pair, and nothing is asked of the
    token manager on its behalf, which for a refresh would refuse the spent token.
   */
  method Repeat(x: Interceptor, h: TokenHandler, r1: Id, r2: Id, input: Input, clientKey: string)
    returns (second: Result<TokenPair, Code>)
    requires x.Valid() && h.ManagersValid() && x !in h.Footprint() && x.st !in h.Footprint()
    requires ValidInput(input) && input.tenantId != "" && clientKey != "" && r2 !in x.sessions
    requires r1 in x.sessions && x.sessions[r1].req == Request(input, clientKey) && x.sessions[r1].phase.Done?
    modifies x, x.st`db, x.st`now, x.st`answers, h.ManagerOf(input.tenantId)
    ensures x.Valid() && h.ManagersValid() && x.Grew() && old(h.Calls(input.tenantId)) <= h.Calls(input.tenantId)
    ensures forall i, pair ::
              StoredAndFresh(x, i, r1, pair) && InspectError(r2) !in x.steps ==>
                && old(x.sessions[r1].phase) == Done(Ran(Success(pair)))
                && second == Success(pair)
                && h.Calls(input.tenantId) == old(h.Calls(input.tenantId))
  {
    hide IsRun, Steps, Apply, Enabled, Protected, ValidInput, KeyedPath, HandlerDid, OwnSteps;
    ghost var midway, n := x.trace, |x.steps|;
    ghost var s1 := x.sessions[r1];
    RunShape(x.c, x.trace, x.steps);
    ghost var own, answers, calls, at;
    second, own, answers, calls, at := x.Handle(r2, input, clientKey, "", h);
    forall i, pair | StoredAndFresh(x, i, r1, pair) && InspectError(r2) !in x.steps
      ensures s1.phase == Done(Ran(Success(pair))) && second == Success(pair) && calls == []
    {
      assert x.trace[n] == midway[n] && midway[n].sessions[r1] == s1;
      RetryOutcome(x.c, x.trace, x.steps, n, r1, r2, Request(input, clientKey), i, pair);
      PathMeans(x.c, own, answers, calls, r2, Request(input, clientKey), h.Found(input.tenantId), at, x.sessions[r2].phase.outcome);
    }
  }

  /** The first call: if its handler came back with a pair, the library was asked for it with the presented token. */
  method FirstRefresh(x: Interceptor, h: TokenHandler, r1: Id, token: string, tenantId: string, claims: Claims, clientKey: string)
    returns (first: Result<TokenPair, Code>, ghost calls: seq<LibraryCall>, ghost at: int)
    requires x.Valid() && h.ManagersValid() && r1 !in x.sessions && x !in h.Footprint() && x.st !in h.Footprint()
    requires ValidInput(RefreshInput(token, tenantId, claims)) && tenantId != "" && clientKey != ""
    modifies x, x.st`db, x.st`now, x.st`answers, h.ManagerOf(tenantId)
    ensures x.Valid() && h.ManagersValid() && h.Calls(tenantId) == old(h.Calls(tenantId)) + calls
    ensures r1 in x.sessions && x.sessions[r1].req == Request(RefreshInput(token, tenantId, claims), clientKey)
    ensures x.sessions[r1].phase.Done?
    ensures forall pair :: x.sessions[r1].phase == Done(Ran(Success(pair))) ==>
              first == Success(pair) && RefreshedFrom(calls, token, claims, at, pair)
  {
    hide IsRun, Steps, Apply, Enabled, ValidInput, KeyedPath, RefreshedFrom, OwnSteps;
    ghost var own, answers;
    first, own, answers, calls, at := x.Handle(r1, RefreshInput(token, tenantId, claims), clientKey, "", h);
    PathMeans(x.c, own, answers, calls, r1, x.sessions[r1].req, h.Found(tenantId), at, x.sessions[r1].phase.outcome);
  }

  /**
    A client sends a keyed RefreshToken and, whatever it heard, sends it again, with any number of
    other requests on the same key, tenant and manager before, between and after. If the first call's
    record was stored and is protected, and the second call met no Get error, then both calls return
    the very same pair; the library was asked for it once, by the first call, with the presented
    token; and that token is spent exactly once.
   */
  method RefreshTwice(
      x: Interceptor, h: TokenHandler, r1: Id, token: string, tenantId: string, claims: Claims, clientKey: string)
    returns (first: Result<TokenPair, Code>, second: Result<TokenPair, Code>, ghost r2: Id, ghost at: int)
    requires x.Valid() && h.ManagersValid() && r1 !in x.sessions && x !in h.Footprint() && x.st !in h.Footprint()
    requires ValidInput(RefreshInput(token, tenantId, claims)) && tenantId != "" && clientKey != ""
    modifies x, x.st`db, x.st`now, x.st`answers, h.ManagerOf(tenantId)
    ensures x.Valid() && h.ManagersValid() && old(h.Calls(tenantId)) <= h.Calls(tenantId)
    ensures forall i, pair ::
              StoredAndFresh(x, i, r1, pair) && InspectError(r2) !in x.steps ==>
                && first == Success(pair) && second == Success(pair)
                && RefreshedFrom(h.Calls(tenantId)[|old(h.Calls(tenantId))|..], token, claims, at, pair)
                && multiset(h.Spent(tenantId))[token] == 1
  {
    hide IsRun, Steps, Apply, Enabled, Protected, ValidInput, RefreshedFrom;
    ghost var calls;
    first, calls, at := FirstRefresh(x, h, r1, token, tenantId, claims, clientKey);
    ghost var phase, middle := x.sessions[r1].phase, h.Calls(tenantId);
    var fresh2 := NewId(x);
    r2 := fresh2;
    second := Repeat(x, h, r1, fresh2, RefreshInput(token, tenantId, claims), clientKey);
    forall i, pair | StoredAndFresh(x, i, r1, pair) && InspectError(r2) !in x.steps
      ensures first == Success(pair) && second == Success(pair)
      ensures RefreshedFrom(h.Calls(tenantId)[|old(h.Calls(tenantId))|..], token, claims, at, pair)
      ensures multiset(h.Spent(tenantId))[token] == 1
    {
      assert phase == Done(Ran(Success(pair))) && h.Calls(tenantId) == middle;
      assert h.Calls(tenantId)[|old(h.Calls(tenantId))|..] == calls;
      SpentOnce(h, tenantId, |old(h.Calls(tenantId))|, token, claims, at, pair);
    }
  }

  /** A token the library says it refreshed is spent, and no token is spent twice. */
  lemma SpentOnce(h: TokenHandler, tenantId: string, n: nat, token: string, claims: Claims, at: int, pair: GoPair)
    requires h.ManagersValid() && n <= |h.Calls(tenantId)|
    requires RefreshedFrom(h.Calls(tenantId)[n..], token, claims, at, pair)
    ensures multiset(h.Spent(tenantId))[token] == 1
  {
    hide ReissuedFrom;
    assert h.Calls(tenantId)[n] == Refreshed(token, Custom(claims), pair.accessToken);
    OnceIfDistinct(h.Spent(tenantId), token);
  }

  lemma {:induction false} OnceIfDistinct(xs: seq<string>, x: string)
    requires Distinct(xs) && x in xs
    ensures multiset(xs)[x] == 1
  {
    var i :| 0 <= i < |xs| && xs[i] == x;
    assert xs == xs[..i] + [x] + xs[i + 1..];
    assert x !in xs[..i] && x !in xs[i + 1..];
  }

  /** An ID no request has had. */
  method NewId(x: Interceptor) returns (r: Id)
    ensures r !in x.sessions
  {
    FreshIdExists(x.sessions.Keys);
    r :| r !in x.sessions.Keys;
  }

  lemma RunShape(c: Config, trace: seq<State>, steps: seq<Step>)
    requires IsRun(c, trace, steps)
    ensures |trace| == |steps| + 1
  {
    hide Apply;
  }
}
