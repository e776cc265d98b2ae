/**
  The four revoke RPCs (internal/handler/token.go) as a transition system: any number of them at once,
  each going through the audit gate, the tenant lookup, the library call and the audit record, and
  every answer from outside a step of its own.
 */
module RevocationProtocol {
  import opened Wrappers
  import opened Grpc
  import opened TokenManagers

  datatype Event = Event(
    tenant: string, caller: string, tokenRef: string, target: string, scope: Scope, occurredAt: int)

  datatype RevokeRequest =
    | RevokeToken(tenantId: string, refreshToken: string)
    | RevokeAudience(tenantId: string, audience: string)
    | RevokeUser(tenantId: string, userId: string)
    | RevokeUserAndAudience(tenantId: string, userId: string, audience: string)

  datatype RevokeError = AuditUnavailable | LookupFailed(code: Code) | LibraryError(code: Code) | AuditRecordFailed

  datatype RevokeReply = Ok | Err(error: RevokeError)

  /** e is the audit record of rv, for the caller who asked. */
  predicate Records(e: Event, rv: Revocation, caller: string, ref: string -> string) {
    && e.tenant == rv.tenant && e.caller == caller && e.scope == rv.scope
    && e.tokenRef == (if rv.scope == TokenScope then ref(rv.userOrToken) else "")
    && e.target == (match rv.scope
                    case TokenScope => ""
                    case AudienceScope => rv.audience
                    case UserScope => rv.userOrToken
                    case UserAudienceScope => rv.userOrToken)
  }

  /** rv is what req asks for; a token is revoked by its ID. */
  predicate Answers(rv: Revocation, req: RevokeRequest) {
    && rv.tenant == req.tenantId
    && match req
       case RevokeToken(_, _) => rv.scope == TokenScope && rv.audience == ""
       case RevokeAudience(_, a) => rv.scope == AudienceScope && rv.userOrToken == "" && rv.audience == a
       case RevokeUser(_, u) => rv.scope == UserScope && rv.userOrToken == u && rv.audience == ""
       case RevokeUserAndAudience(_, u, a) => rv.scope == UserAudienceScope && rv.userOrToken == u && rv.audience == a
  }

  datatype Phase =
    | Gate                       // the audit store is pinged next
    | Finding                    // the tenant is looked up next
    | Acting                     // the library is called next
    | Recording(rv: Revocation)  // rv is done, its audit record comes next
    | Done(reply: RevokeReply)
  {
    /** The library call has succeeded. */
    predicate HasRevoked() {
      Recording? || this == Done(Ok) || this == Done(Err(AuditRecordFailed))
    }
  }

  type Id = nat

  datatype RevokeRpc = RevokeRpc(req: RevokeRequest, caller: string, phase: Phase)

  /** All revocations carried out and all events written, each with the RPC it is due to, and the RPCs. */
  datatype State = State(
    revocations: seq<Revocation>, revokers: seq<Id>, events: seq<Event>, recorders: seq<Id>, rpcs: map<Id, RevokeRpc>)

  datatype Step =
    | Arrive(r: Id, req: RevokeRequest, caller: string)
    | Ping(r: Id, ok: bool)
    | Find(r: Id, found: Result<(), Code>)
    | Act(r: Id, result: Result<Revocation, Code>)
    | Record(r: Id, event: Event, ok: bool)

  predicate Enabled(ref: string -> string, s: State, step: Step) {
    match step
    case Arrive(r, _, _) => r !in s.rpcs
    case Ping(r, _) => r in s.rpcs && s.rpcs[r].phase.Gate?
    case Find(r, _) => r in s.rpcs && s.rpcs[r].phase.Finding?
    case Act(r, result) => r in s.rpcs && s.rpcs[r].phase.Acting? && (result.Success? ==> Answers(result.value, s.rpcs[r].req))
    case Record(r, e, _) =>
      r in s.rpcs && s.rpcs[r].phase.Recording? && Records(e, s.rpcs[r].phase.rv, s.rpcs[r].caller, ref)
  }

  function Enter(s: State, r: Id, p: Phase): State
    requires r in s.rpcs
  {
    s.(rpcs := s.rpcs[r := s.rpcs[r].(phase := p)])
  }

  function Apply(ref: string -> string, s: State, step: Step): State
    requires Enabled(ref, s, step)
  {
    match step
    case Arrive(r, req, caller) => s.(rpcs := s.rpcs[r := RevokeRpc(req, caller, Gate)])
    case Ping(r, ok) => Enter(s, r, if ok then Finding else Done(Err(AuditUnavailable)))
    case Find(r, found) => Enter(s, r, if found.Success? then Acting else Done(Err(LookupFailed(found.error))))
    case Act(r, result) =>
      (match result
       case Failure(e) => Enter(s, r, Done(Err(LibraryError(e))))
       case Success(rv) => Enter(s, r, Recording(rv)).(revocations := s.revocations + [rv], revokers := s.revokers + [r]))
    case Record(r, e, ok) =>
      if ok then Enter(s, r, Done(Ok)).(events := s.events + [e], recorders := s.recorders + [r])
      else Enter(s, r, Done(Err(AuditRecordFailed)))
  }

  const INITIAL: State := State([], [], [], [], map[])

  ghost predicate IsRun(ref: string -> string, trace: seq<State>, steps: seq<Step>) {
    && |trace| == |steps| + 1 && trace[0] == INITIAL
    && forall i :: 0 <= i < |steps| ==> Enabled(ref, trace[i], steps[i]) && trace[i + 1] == Apply(ref, trace[i], steps[i])
  }

  // ----- the books -----

  function Revokers(s: State): set<Id> { set r | r in s.rpcs && s.rpcs[r].phase.HasRevoked() }

  function Recorded(s: State): set<Id> { set r | r in s.rpcs && s.rpcs[r].phase == Done(Ok) }

  function Unrecorded(s: State): set<Id> { set r | r in s.rpcs && s.rpcs[r].phase == Done(Err(AuditRecordFailed)) }

  function InBetween(s: State): set<Id> { set r | r in s.rpcs && s.rpcs[r].phase.Recording? }

  ghost predicate NoRepeats(xs: seq<Id>) {
    forall i, j :: 0 <= i < j < |xs| ==> xs[i] != xs[j]
  }

  /** Every RPC that revoked did so once, every one that recorded did so once, and nothing else is in the books. */
  ghost predicate Books(s: State) {
    && |s.revocations| == |s.revokers| && |s.events| == |s.recorders|
    && NoRepeats(s.revokers) && NoRepeats(s.recorders)
    && (forall r :: r in s.revokers <==> r in Revokers(s))
    && (forall r :: r in s.recorders <==> r in Recorded(s))
  }

  /** What an RPC did is what it was asked to do, and its event says what it did. */
  ghost predicate Matched(ref: string -> string, s: State) {
    && |s.revocations| == |s.revokers| && |s.events| == |s.recorders|
    && (forall m :: 0 <= m < |s.revokers| ==>
          && s.revokers[m] in s.rpcs && Answers(s.revocations[m], s.rpcs[s.revokers[m]].req)
          && (s.rpcs[s.revokers[m]].phase.Recording? ==> s.rpcs[s.revokers[m]].phase.rv == s.revocations[m]))
    && (forall m, n :: 0 <= m < |s.revokers| && 0 <= n < |s.recorders| && s.revokers[m] == s.recorders[n] ==>
          s.revokers[m] in s.rpcs && Records(s.events[n], s.revocations[m], s.rpcs[s.revokers[m]].caller, ref))
  }

  lemma BooksStep(ref: string -> string, s: State, step: Step)
    requires Enabled(ref, s, step) && Books(s)
    ensures Books(Apply(ref, s, step))
  {
    hide Records, Answers;
    var t := Apply(ref, s, step);
    assert step.r in s.revokers <==> step.r in Revokers(s);
    assert step.r in s.recorders <==> step.r in Recorded(s);
    forall r ensures r in t.revokers <==> r in Revokers(t) {
      assert r in s.revokers <==> r in Revokers(s);
      assert r in t.revokers <==> r in s.revokers || (step.Act? && step.result.Success? && step.r == r);
    }
    forall r ensures r in t.recorders <==> r in Recorded(t) {
      assert r in s.recorders <==> r in Recorded(s);
      assert r in t.recorders <==> r in s.recorders || (step.Record? && step.ok && step.r == r);
    }
  }

  lemma MatchedStep(ref: string -> string, s: State, step: Step)
    requires Enabled(ref, s, step) && Books(s) && Matched(ref, s)
    ensures Matched(ref, Apply(ref, s, step))
  {
    hide Records, Answers;
    if step.Record? {
      assert step.r !in s.recorders;
    }
    if step.Act? {
      assert step.r !in s.revokers && step.r !in s.recorders;
    }
    if step.Arrive? {
      assert step.r !in s.revokers;
    }
  }

  lemma {:induction false} BooksRun(ref: string -> string, trace: seq<State>, steps: seq<Step>, i: nat)
    requires IsRun(ref, trace, steps) && i < |trace|
    ensures Books(trace[i]) && Matched(ref, trace[i])
  {
    hide Apply, Enabled;
    if i > 0 {
      BooksRun(ref, trace, steps, i - 1);
      BooksStep(ref, trace[i - 1], steps[i - 1]);
      MatchedStep(ref, trace[i - 1], steps[i - 1]);
    }
  }

  lemma {:induction false} Cardinality(xs: seq<Id>, s: set<Id>)
    requires NoRepeats(xs) && forall r :: r in xs <==> r in s
    ensures |xs| == |s|
  {
    if xs == [] {
      assert s == {};
    } else {
      var x, before := xs[|xs| - 1], xs[..|xs| - 1];
      forall r ensures r in before <==> r in s - {x} {
        assert r in xs <==> r in before || r == x;
      }
      Cardinality(before, s - {x});
    }
  }

  /**
    At every moment of every run: revocations = events + RPCs answered "audit record failed" + RPCs
    between their revocation and its record; and events = OK replies.
   */
  lemma AuditBalance(ref: string -> string, trace: seq<State>, steps: seq<Step>, i: nat)
    requires IsRun(ref, trace, steps) && i < |trace|
    ensures |trace[i].revocations| == |trace[i].events| + |Unrecorded(trace[i])| + |InBetween(trace[i])|
    ensures |trace[i].events| == |Recorded(trace[i])|
  {
    hide Apply, Enabled, Matched;
    var s := trace[i];
    BooksRun(ref, trace, steps, i);
    Cardinality(s.revokers, Revokers(s));
    Cardinality(s.recorders, Recorded(s));
    assert Revokers(s) == Recorded(s) + Unrecorded(s) + InBetween(s);
    assert |Recorded(s) + Unrecorded(s)| == |Recorded(s)| + |Unrecorded(s)|;
  }

  // ----- one RPC through a run -----

  lemma RpcFrame(ref: string -> string, s: State, step: Step, r: Id)
    requires Enabled(ref, s, step) && r in s.rpcs
    ensures var t := Apply(ref, s, step);
            && r in t.rpcs && t.rpcs[r].req == s.rpcs[r].req && t.rpcs[r].caller == s.rpcs[r].caller
            && (s.rpcs[r].phase.Done? || step.r != r ==> t.rpcs[r] == s.rpcs[r])
  {
    hide Records, Answers;
  }

  lemma {:induction false} DoneStays(ref: string -> string, trace: seq<State>, steps: seq<Step>, i: nat, j: nat, r: Id)
    requires IsRun(ref, trace, steps) && i <= j < |trace| && r in trace[i].rpcs && trace[i].rpcs[r].phase.Done?
    ensures r in trace[j].rpcs && trace[j].rpcs[r] == trace[i].rpcs[r]
  {
    hide Apply, Enabled;
    if i < j {
      DoneStays(ref, trace, steps, i, j - 1, r);
      RpcFrame(ref, trace[j - 1], steps[j - 1], r);
    }
  }

  /** Where an RPC's present phase came from. */
  lemma PhaseOrigin(ref: string -> string, s: State, step: Step, r: Id)
    requires Enabled(ref, s, step) && r in Apply(ref, s, step).rpcs
    ensures var t := Apply(ref, s, step);
            && (t.rpcs[r].phase.Recording? ==>
                  || (r in s.rpcs && s.rpcs[r] == t.rpcs[r]) || step == Act(r, Success(t.rpcs[r].phase.rv)))
            && (t.rpcs[r].phase in {Done(Ok), Done(Err(AuditRecordFailed))} ==>
                  || (r in s.rpcs && s.rpcs[r] == t.rpcs[r])
                  || (step.Record? && step.r == r && step.ok == (t.rpcs[r].phase == Done(Ok))))
  {
    hide Records, Answers;
  }

  lemma {:induction false} RecordedAtSomeStep(ref: string -> string, trace: seq<State>, steps: seq<Step>, j: nat, r: Id)
    returns (b: nat)
    requires IsRun(ref, trace, steps) && j < |trace| && r in trace[j].rpcs
    requires trace[j].rpcs[r].phase in {Done(Ok), Done(Err(AuditRecordFailed))}
    ensures b < j && steps[b].Record? && steps[b].r == r && steps[b].ok == (trace[j].rpcs[r].phase == Done(Ok))
    ensures r in trace[b].rpcs && trace[b].rpcs[r].phase.Recording?
  {
    hide Apply;
    PhaseOrigin(ref, trace[j - 1], steps[j - 1], r);
    if r in trace[j - 1].rpcs && trace[j - 1].rpcs[r] == trace[j].rpcs[r] {
      b := RecordedAtSomeStep(ref, trace, steps, j - 1, r);
    } else {
      b := j - 1;
    }
  }

  lemma {:induction false} RevokedAtSomeStep(ref: string -> string, trace: seq<State>, steps: seq<Step>, j: nat, r: Id)
    returns (a: nat)
    requires IsRun(ref, trace, steps) && j < |trace| && r in trace[j].rpcs && trace[j].rpcs[r].phase.Recording?
    ensures a < j && steps[a] == Act(r, Success(trace[j].rpcs[r].phase.rv))
  {
    hide Apply;
    PhaseOrigin(ref, trace[j - 1], steps[j - 1], r);
    if r in trace[j - 1].rpcs && trace[j - 1].rpcs[r] == trace[j].rpcs[r] {
      a := RevokedAtSomeStep(ref, trace, steps, j - 1, r);
    } else {
      a := j - 1;
    }
  }

  /**
    Every event follows exactly one revocation, of the same RPC, which the RPC asked for and which the
    event records: the RPC's library call came back before its record was written.
   */
  lemma EventFollowsRevocation(ref: string -> string, trace: seq<State>, steps: seq<Step>, i: nat, n: nat)
    returns (m: nat, a: nat, b: nat)
    requires IsRun(ref, trace, steps) && i < |trace| && n < |trace[i].events|
    ensures var s := trace[i];
            && |s.recorders| == |s.events| && |s.revokers| == |s.revocations| && m < |s.revocations|
            && var r := s.recorders[n];
               && s.revokers[m] == r && r in s.rpcs
               && Records(s.events[n], s.revocations[m], s.rpcs[r].caller, ref) && Answers(s.revocations[m], s.rpcs[r].req)
               && (forall k :: 0 <= k < |s.revokers| && s.revokers[k] == r ==> k == m)
               && (forall k :: 0 <= k < |s.recorders| && s.recorders[k] == r ==> k == n)
               && a < b < i && steps[a].Act? && steps[a].r == r && steps[a].result.Success?
               && steps[b].Record? && steps[b].r == r && steps[b].ok
  {
    hide Apply, Enabled, Records, Answers;
    BooksRun(ref, trace, steps, i);
    var s := trace[i];
    var r := s.recorders[n];
    assert r in s.recorders && r in Recorded(s) && r in Revokers(s) && r in s.revokers;
    m :| 0 <= m < |s.revokers| && s.revokers[m] == r;
    b := RecordedAtSomeStep(ref, trace, steps, i, r);
    a := RevokedAtSomeStep(ref, trace, steps, b, r);
  }

  lemma {:induction false} RevokersGrow(ref: string -> string, trace: seq<State>, steps: seq<Step>, i: nat, j: nat, r: Id)
    requires IsRun(ref, trace, steps) && i <= j < |trace| && r in trace[i].revokers
    ensures r in trace[j].revokers
  {
    hide Enabled;
    if i < j {
      RevokersGrow(ref, trace, steps, i, j - 1, r);
    }
  }

  /** An RPC has revoked if and only if its library call has come back with success. */
  lemma RevokedIffLibraryOk(ref: string -> string, trace: seq<State>, steps: seq<Step>, i: nat, r: Id)
    requires IsRun(ref, trace, steps) && i < |trace|
    ensures r in trace[i].revokers <==>
              exists a :: 0 <= a < i && steps[a].Act? && steps[a].r == r && steps[a].result.Success?
  {
    if a :| 0 <= a < i && steps[a].Act? && steps[a].r == r && steps[a].result.Success? {
      assert trace[a + 1] == Apply(ref, trace[a], steps[a]);
      RevokersGrow(ref, trace, steps, a + 1, i, r);
    }
    hide Apply, Enabled, Matched;
    BooksRun(ref, trace, steps, i);
    if r in trace[i].revokers {
      var b := i;
      if !trace[i].rpcs[r].phase.Recording? {
        b := RecordedAtSomeStep(ref, trace, steps, i, r);
      }
      var a := RevokedAtSomeStep(ref, trace, steps, b, r);
    }
  }

  /** An RPC whose ping fails revokes nothing and records nothing, ever. */
  lemma ClosedGateDoesNothing(ref: string -> string, trace: seq<State>, steps: seq<Step>, b: nat, r: Id, i: nat)
    requires IsRun(ref, trace, steps) && b < |steps| && steps[b] == Ping(r, false) && b < i < |trace|
    ensures r !in trace[i].revokers && r !in trace[i].recorders
    ensures r in trace[i].rpcs && trace[i].rpcs[r].phase == Done(Err(AuditUnavailable))
  {
    assert trace[b + 1] == Apply(ref, trace[b], steps[b]);
    hide Matched;
    DoneStays(ref, trace, steps, b + 1, i, r);
    BooksRun(ref, trace, steps, i);
  }

  // ----- the audit record does not gate the revocation -----

  /**
    Whether a revocation is recorded is decided by the audit store's answer alone. Once the gate was
    open, the tenant found and the library call done, the answer to the record comes too late to stop
    anything: from then on the RPC has revoked, and has an event if and only if that answer was ok.
   */
  lemma RecordedIffAnswerOk(ref: string -> string, trace: seq<State>, steps: seq<Step>, b: nat, i: nat)
    requires IsRun(ref, trace, steps) && b < |steps| && steps[b].Record? && b < i < |trace|
    ensures var r := steps[b].r;
            && r in trace[i].revokers
            && (r in trace[i].recorders <==> steps[b].ok)
            && r in trace[i].rpcs
            && trace[i].rpcs[r].phase == Done(if steps[b].ok then Ok else Err(AuditRecordFailed))
  {
    assert trace[b + 1] == Apply(ref, trace[b], steps[b]);
    hide Matched, Records;
    DoneStays(ref, trace, steps, b + 1, i, steps[b].r);
    BooksRun(ref, trace, steps, i);
  }

  lemma Extend(ref: string -> string, trace: seq<State>, steps: seq<Step>, step: Step)
    returns (trace': seq<State>, steps': seq<Step>)
    requires IsRun(ref, trace, steps) && Enabled(ref, trace[|steps|], step)
    ensures steps' == steps + [step] && trace' == trace + [Apply(ref, trace[|steps|], step)] && IsRun(ref, trace', steps')
  {
    hide Apply, Enabled;
    trace', steps' := trace + [Apply(ref, trace[|steps|], step)], steps + [step];
  }

  /**
    The comments at internal/handler/token.go:19-20 and internal/audit/store.go:12 promise that an
    audit record that cannot be written aborts the revocation. It does not: after any history, any
    request that comes in, and any revocation it asks for, if the gate is open, the tenant known and
    the library call successful but the record fails, the revocation stands and no event is written.
   */
  lemma AuditFailureDoesNotAbort(
      ref: string -> string, trace: seq<State>, steps: seq<Step>, r: Id, req: RevokeRequest, caller: string, rv: Revocation, e: Event)
    returns (trace': seq<State>, steps': seq<Step>)
    requires IsRun(ref, trace, steps) && r !in trace[|steps|].rpcs && Answers(rv, req) && Records(e, rv, caller, ref)
    ensures IsRun(ref, trace', steps')
    ensures steps' == steps + [Arrive(r, req, caller), Ping(r, true), Find(r, Success(())), Act(r, Success(rv)), Record(r, e, false)]
    ensures var s, t := trace[|steps|], trace'[|steps'|];
            && t.revocations == s.revocations + [rv] && t.revokers == s.revokers + [r]
            && t.events == s.events && t.recorders == s.recorders
            && t.rpcs == s.rpcs[r := RevokeRpc(req, caller, Done(Err(AuditRecordFailed)))]
  {
    hide Records, Answers;
    var s := trace[|steps|];
    trace', steps' := Extend(ref, trace, steps, Arrive(r, req, caller));
    trace', steps' := Extend(ref, trace', steps', Ping(r, true));
    trace', steps' := Extend(ref, trace', steps', Find(r, Success(())));
    trace', steps' := Extend(ref, trace', steps', Act(r, Success(rv)));
    trace', steps' := Extend(ref, trace', steps', Record(r, e, false));
    assert trace'[|steps'|].rpcs == s.rpcs[r := RevokeRpc(req, caller, Done(Err(AuditRecordFailed)))];
  }
}
