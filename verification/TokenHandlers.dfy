/** The TokenEngine RPC handlers (internal/handler/token.go). */
module TokenHandlers {
  import opened Wrappers
  import opened Sequences
  import opened Grpc
  import opened TokenPairWire
  import opened RequestFingerprint
  import opened TokenManagers
  import opened RevocationProtocol

  const SECOND: int := 1_000_000_000

  /** time.Until, which saturates at the largest Duration. */
  function Until(t: int, now: int): int {
    if t - now >= TWO_63 then TWO_63 - 1 else t - now
  }

  /** Whole seconds from now until t, zero when t is past; times are in nanoseconds. */
  function ExpiresInSeconds(t: int, now: int): (s: int)
    ensures 0 <= s < TWO_63
    ensures t <= now ==> s == 0
    ensures now < t < now + TWO_63 ==> s * 1_000_000_000 <= t - now < (s + 1) * 1_000_000_000
    ensures t >= now + TWO_63 ==> s == 9_223_372_036
  {
    var d := Until(t, now);
    if d <= 0 then 0 else d / SECOND
  }

  // ----- audit -----

  datatype AuditAnswer = Pinged(ok: bool) | Answered(event: Event, ok: bool)

  class AuditStore {
    var events: seq<Event>                  // durably written, by whichever request
    ghost var answers: seq<AuditAnswer>     // what this object answered, in order

    constructor ()
      ensures events == [] && answers == []
    {
      events, answers := [], [];
    }

    method Ping() returns (ok: bool)
      modifies this`answers
      ensures answers == old(answers) + [Pinged(ok)]
    {
      ok := *;
      answers := answers + [Pinged(ok)];
    }

    /** Writes the event durably, or fails and writes nothing. */
    method RecordRevocation(e: Event) returns (ok: bool)
      modifies this
      ensures events == if ok then old(events) + [e] else old(events)
      ensures answers == old(answers) + [Answered(e, ok)]
    {
      ok := *;
      if ok { events := events + [e]; }
      answers := answers + [Answered(e, ok)];
    }
  }

  // ----- what an OK reply says the library was asked -----

  /** The claims handed to the library: those of the request, none being an empty map. */
  ghost function Custom(claims: Claims): map<string, string> {
    if claims.NilClaims? then map[] else claims.entries
  }

  /**
    What an OK IssueToken asked of its manager, and the pair it made of the answers: the tokens just
    issued, each with its own remaining lifetime.
   */
  ghost predicate IssuedFrom(calls: seq<LibraryCall>, sub: string, claims: Claims, audiences: seq<string>, now: int, pair: GoPair) {
    && |calls| == 3 && calls[1].Validated? && calls[2].Introspected?
    && calls == [IssuedPair(sub, Custom(claims), audiences, pair.accessToken, pair.refreshToken),
                 Validated(pair.accessToken, calls[1].info),
                 Introspected(pair.refreshToken, calls[2].id, calls[2].expiresAt)]
    && pair.accessExpiresIn == ExpiresInSeconds(calls[1].info.expiresAt, now)
    && pair.refreshExpiresIn == ExpiresInSeconds(calls[2].expiresAt, now)
  }

  /** Likewise for RefreshToken: the presented token was rotated, and the rest follows. */
  ghost predicate RefreshedFrom(calls: seq<LibraryCall>, token: string, claims: Claims, now: int, pair: GoPair) {
    && |calls| == 4 && calls[0] == Refreshed(token, Custom(claims), pair.accessToken)
    && ReissuedFrom(calls[1..], claims, now, pair)
  }

  /** The replacement refresh token goes to the subject and audience of the new access token. */
  ghost predicate ReissuedFrom(calls: seq<LibraryCall>, claims: Claims, now: int, pair: GoPair) {
    && |calls| == 3 && calls[0].Validated? && calls[2].Introspected?
    && calls == [Validated(pair.accessToken, calls[0].info),
                 IssuedRefresh(calls[0].info.subject, Custom(claims), calls[0].info.audience, pair.refreshToken),
                 Introspected(pair.refreshToken, calls[2].id, calls[2].expiresAt)]
    && pair.accessExpiresIn == ExpiresInSeconds(calls[0].info.expiresAt, now)
    && pair.refreshExpiresIn == ExpiresInSeconds(calls[2].expiresAt, now)
  }

  /**
    What IssueToken asked of its manager and replied: the pair made of the answers, or the code of the
    call that was refused, after which nothing more was asked. A pair whose access token does not
    validate is Internal.
   */
  ghost predicate IssueDid(
      calls: seq<LibraryCall>, sub: string, claims: Claims, audiences: seq<string>, now: int, reply: Result<GoPair, Code>)
  {
    match reply
    case Success(pair) => IssuedFrom(calls, sub, claims, audiences, now, pair)
    case Failure(e) =>
      || calls == [Refused(e)]
      || (|calls| >= 2 && calls[0].IssuedPair?
          && calls[0] == IssuedPair(sub, Custom(claims), audiences, calls[0].access, calls[0].refresh)
          && if |calls| == 2 then calls[1].Refused? && e == Internal
             else |calls| == 3 && calls[1].Validated? && calls[1].access == calls[0].access && calls[2] == Refused(e))
  }

  /** Likewise for RefreshToken. */
  ghost predicate RefreshDid(calls: seq<LibraryCall>, token: string, claims: Claims, now: int, reply: Result<GoPair, Code>) {
    match reply
    case Success(pair) => RefreshedFrom(calls, token, claims, now, pair)
    case Failure(e) =>
      || calls == [Refused(e)]
      || (|calls| >= 2 && calls[0].Refreshed? && calls[0] == Refreshed(token, Custom(claims), calls[0].access)
          && ReissueStopped(calls[1..], calls[0].access, claims, e))
  }

  /** After the rotation: one of the three calls that follow was refused. */
  ghost predicate ReissueStopped(calls: seq<LibraryCall>, access: string, claims: Claims, e: Code) {
    if |calls| == 1 then calls[0].Refused? && e == Internal
    else
      && 2 <= |calls| <= 3 && calls[0].Validated? && calls[0].access == access && calls[|calls| - 1] == Refused(e)
      && (|calls| == 3 ==>
            && calls[1].IssuedRefresh?
            && calls[1] == IssuedRefresh(calls[0].info.subject, Custom(claims), calls[0].info.audience, calls[1].refresh))
  }

  /** So issuing refreshes nothing, and at most the first call of a refresh does, with the presented token. */
  lemma OnlyRefreshes(
      calls: seq<LibraryCall>, sub: string, token: string, claims: Claims, audiences: seq<string>, now: int,
      reply: Result<GoPair, Code>)
    ensures IssueDid(calls, sub, claims, audiences, now, reply) ==> forall c :: c in calls ==> !c.Refreshed?
    ensures RefreshDid(calls, token, claims, now, reply) ==>
              forall k :: 0 <= k < |calls| && calls[k].Refreshed? ==> k == 0 && calls[k].token == token
  {
    if RefreshDid(calls, token, claims, now, reply) && |calls| > 1 {
      assert forall k :: 0 < k < |calls| ==> calls[k] == calls[1..][k - 1];
    }
  }

  /** A revocation the library did not carry out: the first call or, after introspection, the second was refused. */
  ghost predicate RevokeStopped(calls: seq<LibraryCall>, req: RevokeRequest, e: Code) {
    || calls == [Refused(e)]
    || (req.RevokeToken? && |calls| == 2 && calls[1] == Refused(e)
        && calls[0].Introspected? && calls[0].token == req.refreshToken)
  }

  /** The calls behind a revocation, and what it revoked; a token is revoked by the ID that introspecting it gave. */
  ghost predicate RevokedFrom(calls: seq<LibraryCall>, req: RevokeRequest, rv: Revocation) {
    match req
    case RevokeToken(tenantId, token) =>
      && |calls| == 2 && calls[0].Introspected? && calls[0].token == token
      && calls[1] == Revoked(TokenScope, calls[0].id, "") && rv == Revocation(tenantId, TokenScope, calls[0].id, "")
    case RevokeAudience(tenantId, audience) =>
      calls == [Revoked(AudienceScope, "", audience)] && rv == Revocation(tenantId, AudienceScope, "", audience)
    case RevokeUser(tenantId, user) =>
      calls == [Revoked(UserScope, user, "")] && rv == Revocation(tenantId, UserScope, user, "")
    case RevokeUserAndAudience(tenantId, user, audience) =>
      && calls == [Revoked(UserAudienceScope, user, audience)]
      && rv == Revocation(tenantId, UserAudienceScope, user, audience)
  }

  /** The event a request leaves behind; id is that of the token it revoked, if it revoked one. */
  ghost predicate Reports(e: Event, req: RevokeRequest, id: string, caller: string, ref: string -> string) {
    && e.tenant == req.tenantId && e.caller == caller
    && match req
       case RevokeToken(_, _) => e.scope == TokenScope && e.tokenRef == ref(id) && e.target == ""
       case RevokeAudience(_, audience) => e.scope == AudienceScope && e.tokenRef == "" && e.target == audience
       case RevokeUser(_, user) => e.scope == UserScope && e.tokenRef == "" && e.target == user
       case RevokeUserAndAudience(_, user, _) => e.scope == UserAudienceScope && e.tokenRef == "" && e.target == user
  }

  lemma RecordReports(calls: seq<LibraryCall>, req: RevokeRequest, rv: Revocation, e: Event, caller: string, ref: string -> string)
    requires RevokedFrom(calls, req, rv) && Records(e, rv, caller, ref)
    ensures Reports(e, req, rv.userOrToken, caller, ref)
  {
  }

  // ----- what a revoke RPC does -----

  /** r's own steps, in order. */
  function Own(steps: seq<Step>, r: Id): seq<Step> {
    Filter(steps, (step: Step) => step.r == r)
  }

  lemma OwnAppend(steps: seq<Step>, step: Step, r: Id)
    ensures Own(steps + [step], r) == Own(steps, r) + if step.r == r then [step] else []
  {
    FilterAppend(steps, step, (step: Step) => step.r == r);
  }

  /** The library said yes: the record is written next, and the reply is the audit store's answer to it. */
  ghost predicate RecordPath(
      own: seq<Step>, answers: seq<AuditAnswer>, calls: seq<LibraryCall>,
      r: Id, req: RevokeRequest, caller: string, ref: string -> string, rv: Revocation, now: int, reply: RevokeReply)
  {
    && RevokedFrom(calls, req, rv) && |own| == |answers| == 1 && answers[0].Answered?
    && own[0] == Record(r, answers[0].event, answers[0].ok) && answers[0].event.occurredAt == now
    && Reports(answers[0].event, req, rv.userOrToken, caller, ref)
    && reply == if answers[0].ok then Ok else Err(AuditRecordFailed)
  }

  /** The gate is open and the tenant known: the library is called. */
  ghost predicate ActPath(
      own: seq<Step>, answers: seq<AuditAnswer>, calls: seq<LibraryCall>,
      r: Id, req: RevokeRequest, caller: string, ref: string -> string, now: int, reply: RevokeReply)
  {
    && |own| >= 1 && own[0].Act? && own[0].r == r
    && match own[0].result
       case Failure(e) =>
         |own| == 1 && answers == [] && RevokeStopped(calls, req, e) && reply == Err(LibraryError(e))
       case Success(rv) => RecordPath(own[1..], answers, calls, r, req, caller, ref, rv, now, reply)
  }

  /** The gate is open: the tenant is looked up. */
  ghost predicate FindPath(
      own: seq<Step>, answers: seq<AuditAnswer>, calls: seq<LibraryCall>,
      r: Id, req: RevokeRequest, caller: string, ref: string -> string, found: Result<(), Code>, now: int, reply: RevokeReply)
  {
    && |own| >= 1 && own[0] == Find(r, found)
    && match found
       case Failure(e) => |own| == 1 && answers == [] && calls == [] && reply == Err(LookupFailed(e))
       case Success(_) => ActPath(own[1..], answers, calls, r, req, caller, ref, now, reply)
  }

  /**
    The whole RPC: gate, lookup, library, record. Its steps are the answers it got from the audit
    store, the registry and the library, and they decide the reply.
   */
  ghost predicate RevokePath(
      own: seq<Step>, answers: seq<AuditAnswer>, calls: seq<LibraryCall>,
      r: Id, req: RevokeRequest, caller: string, ref: string -> string, found: Result<(), Code>, now: int, reply: RevokeReply)
  {
    && |own| >= 2 && |answers| >= 1 && answers[0].Pinged?
    && own[0] == Arrive(r, req, caller) && own[1] == Ping(r, answers[0].ok)
    && (if answers[0].ok then FindPath(own[2..], answers[1..], calls, r, req, caller, ref, found, now, reply)
        else |own| == 2 && |answers| == 1 && calls == [] && reply == Err(AuditUnavailable))
  }

  /** All revoke RPCs so far and how far they have got, over the journal and the audit store they share. */
  class RevocationLedger {
    const journal: Journal
    const audit: AuditStore
    const ref: string -> string   // tokenref.Ref, a digest

    var rpcs: map<Id, RevokeRpc>
    var revokers: seq<Id>
    var recorders: seq<Id>
    ghost var trace: seq<State>
    ghost var steps: seq<Step>

    ghost function Present(): State
      reads this, journal, audit
    {
      State(journal.revocations, revokers, audit.events, recorders, rpcs)
    }

    ghost predicate Valid()
      reads this, journal, audit
    {
      IsRun(ref, trace, steps) && trace[|steps|] == Present()
    }

    constructor (journal: Journal, audit: AuditStore, ref: string -> string)
      requires journal.revocations == [] && audit.events == []
      ensures Valid() && this.journal == journal && this.audit == audit && this.ref == ref && rpcs == map[] && steps == []
    {
      this.journal, this.audit, this.ref := journal, audit, ref;
      rpcs, revokers, recorders := map[], [], [];
      trace, steps := [INITIAL], [];
    }

    twostate predicate Grew()
      reads this
    {
      old(trace) <= trace && old(steps) <= steps
    }

    ghost method Log(step: Step)
      requires IsRun(ref, trace, steps) && Enabled(ref, trace[|steps|], step) && Present() == Apply(ref, trace[|steps|], step)
      modifies this`trace, this`steps
      ensures Valid() && steps == old(steps) + [step] && trace == old(trace) + [Present()]
      ensures forall r :: Own(steps, r) == Own(old(steps), r) + if step.r == r then [step] else []
    {
      hide Apply, Enabled, Own;
      forall r: Id ensures Own(steps + [step], r) == Own(steps, r) + if step.r == r then [step] else [] {
        OwnAppend(steps, step, r);
      }
      trace, steps := trace + [Present()], steps + [step];
    }

    /** Any number of steps of RPCs other than r. */
    method Interfere(r: Id)
      requires Valid() && r in rpcs
      modifies this, journal`revocations, audit`events
      ensures Valid() && Grew() && Own(steps, r) == Own(old(steps), r)
      ensures r in rpcs && rpcs[r] == old(rpcs[r])
    {
      var n: nat := *;
      while n > 0
        invariant Valid() && Grew() && Own(steps, r) == Own(old(steps), r)
        invariant r in rpcs && rpcs[r] == old(rpcs[r])
      {
        hide Apply, Enabled, Own;
        n := n - 1;
        var step: Step := *;
        var s := State(journal.revocations, revokers, audit.events, recorders, rpcs);
        if Enabled(ref, s, step) && step.r != r {
          RpcFrame(ref, s, step, r);
          var t := Apply(ref, s, step);
          journal.revocations, audit.events := t.revocations, t.events;
          revokers, recorders, rpcs := t.revokers, t.recorders, t.rpcs;
          Log(step);
        }
      }
    }

    /** r moves on, which changes nothing else. */
    method Enter(r: Id, p: Phase, ghost step: Step)
      requires Valid() && r in rpcs && step.r == r && (step.Ping? || step.Find? || step.Act? || step.Record?)
      requires Enabled(ref, Present(), step)
      requires Apply(ref, Present(), step) == RevocationProtocol.Enter(Present(), r, p)
      modifies this`rpcs, this`trace, this`steps
      ensures Valid() && Grew() && Own(steps, r) == Own(old(steps), r) + [step]
      ensures rpcs == old(rpcs)[r := old(rpcs[r]).(phase := p)]
    {
      hide IsRun, Own, Enabled;
      rpcs := rpcs[r := rpcs[r].(phase := p)];
      Log(step);
    }

    method Arrived(r: Id, req: RevokeRequest, caller: string)
      requires Valid() && r !in rpcs
      modifies this`rpcs, this`trace, this`steps
      ensures Valid() && Grew() && Own(steps, r) == Own(old(steps), r) + [Arrive(r, req, caller)]
      ensures rpcs == old(rpcs)[r := RevokeRpc(req, caller, Gate)]
    {
      hide IsRun, Own;
      rpcs := rpcs[r := RevokeRpc(req, caller, Gate)];
      Log(Arrive(r, req, caller));
    }

    method GateAnswered(r: Id, ok: bool)
      requires Valid() && r in rpcs && rpcs[r].phase.Gate?
      modifies this`rpcs, this`trace, this`steps
      ensures Valid() && Grew() && Own(steps, r) == Own(old(steps), r) + [Ping(r, ok)]
      ensures r in rpcs && rpcs[r] == old(rpcs[r]).(phase := if ok then Finding else Done(Err(AuditUnavailable)))
    {
      hide IsRun, Own;
      Enter(r, if ok then Finding else Done(Err(AuditUnavailable)), Ping(r, ok));
    }

    method LookupAnswered(r: Id, found: Result<(), Code>)
      requires Valid() && r in rpcs && rpcs[r].phase.Finding?
      modifies this`rpcs, this`trace, this`steps
      ensures Valid() && Grew() && Own(steps, r) == Own(old(steps), r) + [Find(r, found)]
      ensures r in rpcs && rpcs[r] == old(rpcs[r]).(phase := if found.Success? then Acting else Done(Err(LookupFailed(found.error))))
    {
      hide IsRun, Own;
      Enter(r, if found.Success? then Acting else Done(Err(LookupFailed(found.error))), Find(r, found));
    }

    method LibraryRefused(r: Id, e: Code)
      requires Valid() && r in rpcs && rpcs[r].phase.Acting?
      modifies this`rpcs, this`trace, this`steps
      ensures Valid() && Grew() && Own(steps, r) == Own(old(steps), r) + [Act(r, Failure(e))]
      ensures r in rpcs && rpcs[r] == old(rpcs[r]).(phase := Done(Err(LibraryError(e))))
    {
      hide IsRun, Own;
      Enter(r, Done(Err(LibraryError(e))), Act(r, Failure(e)));
    }

    /** The library call of r has revoked rv, which the journal shows. */
    method HasRevoked(r: Id, rv: Revocation, ghost before: seq<Revocation>)
      requires IsRun(ref, trace, steps) && trace[|steps|] == Present().(revocations := before)
      requires journal.revocations == before + [rv]
      requires r in rpcs && rpcs[r].phase.Acting? && Answers(rv, rpcs[r].req)
      modifies this
      ensures Valid() && Grew() && Own(steps, r) == Own(old(steps), r) + [Act(r, Success(rv))]
      ensures r in rpcs && rpcs[r] == old(rpcs[r]).(phase := Recording(rv))
    {
      hide IsRun, Own, Answers;
      rpcs, revokers := rpcs[r := rpcs[r].(phase := Recording(rv))], revokers + [r];
      Log(Act(r, Success(rv)));
    }

    /** The audit record of r, and the reply that follows from it. */
    method RecordAudit(r: Id, e: Event) returns (reply: RevokeReply)
      requires Valid() && r in rpcs && rpcs[r].phase.Recording? && Records(e, rpcs[r].phase.rv, rpcs[r].caller, ref)
      modifies this, audit
      ensures Valid() && Grew() && r in rpcs && rpcs[r] == old(rpcs[r]).(phase := Done(reply))
      ensures exists ok :: audit.answers == old(audit.answers) + [Answered(e, ok)]
                && Own(steps, r) == Own(old(steps), r) + [Record(r, e, ok)]
                && reply == if ok then Ok else Err(AuditRecordFailed)
    {
      hide IsRun, Own, Records;
      var ok := audit.RecordRevocation(e);
      reply := if ok then Ok else Err(AuditRecordFailed);
      rpcs := rpcs[r := rpcs[r].(phase := Done(reply))];
      if ok { recorders := recorders + [r]; }
      Log(Record(r, e, ok));
    }
  }

  class TokenHandler {
    const ledger: RevocationLedger
    const registry: map<string, TokenManager>   // the tenants registry.Get finds

    /** The objects a handler's state lives in. */
    ghost function Footprint(): set<object> {
      {ledger, ledger.journal, ledger.audit} + registry.Values
    }

    ghost predicate ManagersValid()
      reads registry.Values
    {
      forall t :: t in registry ==> registry[t].tenant == t && registry[t].journal == ledger.journal && registry[t].Valid()
    }

    ghost predicate Valid()
      reads registry.Values, ledger, ledger.journal, ledger.audit
    {
      ManagersValid() && ledger.Valid()
    }

    constructor (registry: map<string, TokenManager>, ledger: RevocationLedger)
      requires forall t :: t in registry ==> registry[t].tenant == t && registry[t].journal == ledger.journal && registry[t].Valid()
      requires ledger.Valid()
      ensures Valid() && this.registry == registry && this.ledger == ledger
    {
      this.registry, this.ledger := registry, ledger;
    }

    // ----- issue and refresh -----

    /** Copies the request's claims into the library's map. */
    method CustomClaims(claims: Claims) returns (custom: map<string, string>)
      ensures custom == Custom(claims)
      ensures claims.NilClaims? ==> custom == map[]
      ensures claims.MadeClaims? ==> custom == claims.entries
    {
      custom := map[];
      if claims.MadeClaims? {
        var left := claims.entries.Keys;
        while left != {}
          invariant left <= claims.entries.Keys
          invariant custom.Keys == claims.entries.Keys - left
          invariant forall k :: k in custom ==> custom[k] == claims.entries[k]
          decreases left
        {
          var k :| k in left;
          custom := custom[k := claims.entries[k]];
          left := left - {k};
        }
        assert custom == claims.entries;
      }
    }

    /** The manager a tenant's requests go to, the only one a handler may touch. */
    ghost function ManagerOf(tenantId: string): set<TokenManager> {
      if tenantId in registry then {registry[tenantId]} else {}
    }

    /** The refresh tokens a tenant's manager has spent, in order. */
    ghost function Spent(tenantId: string): seq<string>
      reads ManagerOf(tenantId)
    {
      if tenantId in registry then registry[tenantId].consumed else []
    }

    /** What was asked of a tenant's manager through its object. */
    ghost function Calls(tenantId: string): seq<LibraryCall>
      reads ManagerOf(tenantId)
    {
      if tenantId in registry then registry[tenantId].log else []
    }

    /** What registry.Get answers for a tenant. */
    function Found(tenantId: string): (r: Result<(), Code>)
      ensures r.Success? <==> tenantId in registry && tenantId != ""
      ensures r.Failure? ==> r.error == (if tenantId == "" then InvalidArgument else NotFound)
    {
      if tenantId == "" then Failure(InvalidArgument) else if tenantId !in registry then Failure(NotFound) else Success(())
    }

    /** registry.Get. */
    method Lookup(tenantId: string) returns (r: Result<TokenManager, Code>)
      ensures match Found(tenantId)
              case Success(_) => r == Success(registry[tenantId])
              case Failure(e) => r == Failure(e)
    {
      if tenantId == "" { return Failure(InvalidArgument); }
      if tenantId !in registry { return Failure(NotFound); }
      return Success(registry[tenantId]);
    }

    /** Whatever other requests do to a tenant's tokens meanwhile. */
    method Others(tenantId: string)
      requires ManagersValid()
      modifies ManagerOf(tenantId)
      ensures ManagersValid() && Calls(tenantId) == old(Calls(tenantId))
    {
      if tenantId in registry {
        registry[tenantId].Others();
      }
    }

    /** Issues a pair. On OK its refresh token is new, and the library was asked for it exactly as the request says. */
    method IssueToken(sub: string, tenantId: string, claims: Claims, audiences: seq<string>, now: int)
      returns (reply: Result<GoPair, Code>)
      requires ManagersValid()
      modifies ManagerOf(tenantId)
      ensures ManagersValid()
      ensures Found(tenantId).Failure? ==> reply == Failure(Found(tenantId).error) && Calls(tenantId) == old(Calls(tenantId))
      ensures Found(tenantId).Success? ==>
                var m := registry[tenantId];
                && m.Evolved() && old(m.log) <= m.log
                && IssueDid(m.log[|old(m.log)|..], sub, claims, audiences, now, reply)
                && (reply.Success? ==> reply.value.refreshToken in m.live + m.revoked - old(m.live) - old(m.revoked))
    {
      var found := Lookup(tenantId);
      if found.Failure? { return Failure(found.error); }
      reply := IssueWith(found.value, sub, claims, audiences, now);
    }

    method IssueWith(m: TokenManager, sub: string, claims: Claims, audiences: seq<string>, now: int)
      returns (reply: Result<GoPair, Code>)
      requires m.Valid()
      modifies m
      ensures m.Valid() && m.Evolved() && old(m.log) <= m.log
      ensures IssueDid(m.log[|old(m.log)|..], sub, claims, audiences, now, reply)
      ensures reply.Success? ==> reply.value.refreshToken in m.live + m.revoked - old(m.live) - old(m.revoked)
    {
      hide ExpiresInSeconds;
      var custom := CustomClaims(claims);
      m.Others();
      var pair := m.IssueTokenPairWithClaims(sub, custom, audiences);
      if pair.Failure? { return Failure(pair.error); }
      m.Others();
      var info := m.ValidateAccessToken(pair.value.0);
      if info.Failure? { return Failure(Internal); }
      m.Others();
      var meta := m.IntrospectToken(pair.value.1);
      if meta.Failure? { return Failure(meta.error); }
      return Success(TokenPair(pair.value.0, pair.value.1,
                               ExpiresInSeconds(info.value.expiresAt, now), ExpiresInSeconds(meta.value.1, now)));
    }

    /**
      Rotates a pair. On OK the presented token is spent by this very call, and the new refresh token
      is new. A reply that is not OK may have spent the token too: nothing puts it back.
     */
    method RefreshToken(token: string, tenantId: string, claims: Claims, now: int)
      returns (reply: Result<GoPair, Code>)
      requires ManagersValid()
      modifies ManagerOf(tenantId)
      ensures ManagersValid()
      ensures Found(tenantId).Failure? ==> reply == Failure(Found(tenantId).error) && Calls(tenantId) == old(Calls(tenantId))
      ensures Found(tenantId).Success? ==>
                var m := registry[tenantId];
                && m.Evolved() && old(m.log) <= m.log
                && RefreshDid(m.log[|old(m.log)|..], token, claims, now, reply)
                && (reply.Success? ==>
                      && token !in old(m.revoked) && token in m.revoked && token in m.consumed
                      && reply.value.refreshToken in m.live + m.revoked - old(m.live) - old(m.revoked))
    {
      var found := Lookup(tenantId);
      if found.Failure? { return Failure(found.error); }
      reply := RefreshWith(found.value, token, claims, now);
    }

    method RefreshWith(m: TokenManager, token: string, claims: Claims, now: int) returns (reply: Result<GoPair, Code>)
      requires m.Valid()
      modifies m
      ensures m.Valid() && m.Evolved() && old(m.log) <= m.log
      ensures RefreshDid(m.log[|old(m.log)|..], token, claims, now, reply)
      ensures reply.Success? ==>
                && token !in old(m.revoked) && token in m.revoked && token in m.consumed
                && reply.value.refreshToken in m.live + m.revoked - old(m.live) - old(m.revoked)
    {
      hide ExpiresInSeconds, Distinct;
      var custom := CustomClaims(claims);
      m.Others();
      var access := m.RefreshAccessTokenWithClaims(token, custom);
      if access.Failure? { return Failure(access.error); }
      assert m.consumed[|m.consumed| - 1] == token;
      ghost var asked := m.log;
      reply := ReissueWith(m, access.value, claims, custom, now);
      assert m.log[|old(m.log)|..] == [Refreshed(token, custom, access.value)] + m.log[|asked|..];
    }

    /** The rotated access token names subject and audience of the replacement refresh token. */
    method ReissueWith(m: TokenManager, access: string, claims: Claims, custom: map<string, string>, now: int)
      returns (reply: Result<GoPair, Code>)
      requires m.Valid() && custom == Custom(claims) && |access| < TWO_63
      modifies m
      ensures m.Valid() && m.Evolved() && old(m.log) <= m.log
      ensures forall t :: t in old(m.consumed) ==> t in m.consumed
      ensures reply.Failure? ==> ReissueStopped(m.log[|old(m.log)|..], access, claims, reply.error)
      ensures reply.Success? ==>
                && reply.value.accessToken == access
                && reply.value.refreshToken in m.live + m.revoked - old(m.live) - old(m.revoked)
                && ReissuedFrom(m.log[|old(m.log)|..], claims, now, reply.value)
    {
      hide ExpiresInSeconds, Distinct;
      m.Others();
      var info := m.ValidateAccessToken(access);
      if info.Failure? { return Failure(Internal); }
      m.Others();
      var refresh := m.IssueRefreshTokenWithClaims(info.value.subject, custom, info.value.audience);
      if refresh.Failure? { return Failure(refresh.error); }
      m.Others();
      ghost var asked := [Validated(access, info.value),
                          IssuedRefresh(info.value.subject, custom, info.value.audience, refresh.value)];
      assert m.log == old(m.log) + asked;
      var meta := m.IntrospectToken(refresh.value);
      assert m.log[|old(m.log)|..] == asked + [m.log[|m.log| - 1]];
      if meta.Failure? { return Failure(meta.error); }
      return Success(TokenPair(access, refresh.value,
                               ExpiresInSeconds(info.value.expiresAt, now), ExpiresInSeconds(meta.value.1, now)));
    }

    // ----- revocation -----

    /** The audit event for rv. */
    function EventFor(rv: Revocation, caller: string, now: int): (e: Event)
      ensures Records(e, rv, caller, ledger.ref) && e.occurredAt == now
    {
      match rv.scope
      case TokenScope => Event(rv.tenant, caller, ledger.ref(rv.userOrToken), "", rv.scope, now)
      case AudienceScope => Event(rv.tenant, caller, "", rv.audience, rv.scope, now)
      case UserScope => Event(rv.tenant, caller, "", rv.userOrToken, rv.scope, now)
      case UserAudienceScope => Event(rv.tenant, caller, "", rv.userOrToken, rv.scope, now)
    }

    /** The library call of one of the four revoke handlers, and what it revoked. */
    method RevokeWith(m: TokenManager, req: RevokeRequest) returns (r: Result<Revocation, Code>)
      requires m.Valid() && m.tenant == req.tenantId
      modifies m, m.journal
      ensures m.Valid() && old(m.log) <= m.log
      ensures r.Success? ==> Answers(r.value, req) && RevokedFrom(m.log[|old(m.log)|..], req, r.value)
      ensures r.Failure? ==> RevokeStopped(m.log[|old(m.log)|..], req, r.error)
      ensures m.journal.revocations ==
                if r.Success? then old(m.journal.revocations) + [r.value] else old(m.journal.revocations)
    {
      var done: Result<(), Code>;
      match req {
        case RevokeToken(_, token) =>
          var meta := m.IntrospectToken(token);
          if meta.Failure? { return Failure(meta.error); }
          m.Others();
          done := m.Revoke(TokenScope, meta.value.0, "");
          if done.Success? { return Success(Revocation(m.tenant, TokenScope, meta.value.0, "")); }
        case RevokeAudience(_, audience) =>
          done := m.Revoke(AudienceScope, "", audience);
          if done.Success? { return Success(Revocation(m.tenant, AudienceScope, "", audience)); }
        case RevokeUser(_, user) =>
          done := m.Revoke(UserScope, user, "");
          if done.Success? { return Success(Revocation(m.tenant, UserScope, user, "")); }
        case RevokeUserAndAudience(_, user, audience) =>
          done := m.Revoke(UserAudienceScope, user, audience);
          if done.Success? { return Success(Revocation(m.tenant, UserAudienceScope, user, audience)); }
      }
      return Failure(done.error);
    }

    /**
      The revoke handlers: audit gate, tenant lookup, library call, audit record, in that order, with
      other RPCs at work in between. The steps taken are the answers received, and they decide the reply.
     */
    method Revoke(r: Id, req: RevokeRequest, caller: string, now: int)
      returns (reply: RevokeReply, ghost own: seq<Step>, ghost answers: seq<AuditAnswer>, ghost calls: seq<LibraryCall>)
      requires Valid() && r !in ledger.rpcs
      modifies ledger, ledger.journal, ledger.audit, ManagerOf(req.tenantId)
      ensures Valid() && ledger.Grew()
      ensures r in ledger.rpcs && ledger.rpcs[r] == RevokeRpc(req, caller, Done(reply))
      ensures Own(ledger.steps, r) == Own(old(ledger.steps), r) + own
      ensures ledger.audit.answers == old(ledger.audit.answers) + answers
      ensures Calls(req.tenantId) == old(Calls(req.tenantId)) + calls
      ensures RevokePath(own, answers, calls, r, req, caller, ledger.ref, Found(req.tenantId), now, reply)
    {
      hide IsRun, Own, FindPath, Apply, Enabled;
      var open := ArriveAtGate(r, req, caller);
      if !open {
        reply, own, answers, calls := Err(AuditUnavailable), [Arrive(r, req, caller), Ping(r, false)], [Pinged(false)], [];
        return;
      }
      ghost var rest, more;
      reply, rest, more, calls := FindAndRevoke(r, req, caller, now);
      own, answers := [Arrive(r, req, caller), Ping(r, true)] + rest, [Pinged(true)] + more;
      assert own[2..] == rest && answers[1..] == more;
    }

    /** A new RPC asks the audit store. */
    method ArriveAtGate(r: Id, req: RevokeRequest, caller: string) returns (open: bool)
      requires ledger.Valid() && r !in ledger.rpcs
      modifies ledger, ledger.journal`revocations, ledger.audit
      ensures ledger.Valid() && ledger.Grew() && r in ledger.rpcs
      ensures ledger.rpcs[r] == RevokeRpc(req, caller, if open then Finding else Done(Err(AuditUnavailable)))
      ensures Own(ledger.steps, r) == Own(old(ledger.steps), r) + [Arrive(r, req, caller), Ping(r, open)]
      ensures ledger.audit.answers == old(ledger.audit.answers) + [Pinged(open)]
    {
      hide IsRun, Own, Apply, Enabled;
      ledger.Arrived(r, req, caller);
      ledger.Interfere(r);
      open := ledger.audit.Ping();
      ledger.GateAnswered(r, open);
    }

    /** The gate is open: look the tenant up. */
    method FindAndRevoke(r: Id, req: RevokeRequest, caller: string, now: int)
      returns (reply: RevokeReply, ghost own: seq<Step>, ghost answers: seq<AuditAnswer>, ghost calls: seq<LibraryCall>)
      requires Valid() && r in ledger.rpcs && ledger.rpcs[r] == RevokeRpc(req, caller, Finding)
      modifies ledger, ledger.journal, ledger.audit, ManagerOf(req.tenantId)
      ensures Valid() && ledger.Grew()
      ensures r in ledger.rpcs && ledger.rpcs[r] == RevokeRpc(req, caller, Done(reply))
      ensures Own(ledger.steps, r) == Own(old(ledger.steps), r) + own
      ensures ledger.audit.answers == old(ledger.audit.answers) + answers
      ensures Calls(req.tenantId) == old(Calls(req.tenantId)) + calls
      ensures FindPath(own, answers, calls, r, req, caller, ledger.ref, Found(req.tenantId), now, reply)
    {
      hide IsRun, Own, ActPath, Apply, Enabled;
      ledger.Interfere(r);
      var found := Lookup(req.tenantId);
      ghost var step := Find(r, Found(req.tenantId));
      ledger.LookupAnswered(r, Found(req.tenantId));
      if found.Failure? {
        reply, own, answers, calls := Err(LookupFailed(found.error)), [step], [], [];
        return;
      }
      ghost var rest;
      reply, rest, answers, calls := ActAndRecord(r, req, caller, found.value, now);
      own := [step] + rest;
      assert own[1..] == rest;
    }

    /** The tenant is known: call its library, and record what it did. */
    method ActAndRecord(r: Id, req: RevokeRequest, caller: string, m: TokenManager, now: int)
      returns (reply: RevokeReply, ghost own: seq<Step>, ghost answers: seq<AuditAnswer>, ghost calls: seq<LibraryCall>)
      requires Valid() && req.tenantId in registry && registry[req.tenantId] == m
      requires r in ledger.rpcs && ledger.rpcs[r] == RevokeRpc(req, caller, Acting)
      modifies ledger, ledger.journal, ledger.audit, m
      ensures Valid() && ledger.Grew()
      ensures r in ledger.rpcs && ledger.rpcs[r] == RevokeRpc(req, caller, Done(reply))
      ensures Own(ledger.steps, r) == Own(old(ledger.steps), r) + own
      ensures ledger.audit.answers == old(ledger.audit.answers) + answers && m.log == old(m.log) + calls
      ensures ActPath(own, answers, calls, r, req, caller, ledger.ref, now, reply)
    {
      hide IsRun, Own, RevokedFrom, Answers, Records, Reports, Apply, Enabled;
      var rv := CallLibrary(r, req, m);
      calls := m.log[|old(m.log)|..];
      if rv.Failure? {
        reply, own, answers := Err(LibraryError(rv.error)), [Act(r, rv)], [];
        return;
      }
      ghost var ok, event;
      reply, event, ok := RecordRevoked(r, rv.value, caller, now);
      RecordReports(calls, req, rv.value, event, caller, ledger.ref);
      own, answers := [Act(r, rv), Record(r, event, ok)], [Answered(event, ok)];
      assert own[1..] == [Record(r, event, ok)];
    }

    method CallLibrary(r: Id, req: RevokeRequest, m: TokenManager) returns (rv: Result<Revocation, Code>)
      requires ledger.Valid() && m.Valid() && m.journal == ledger.journal && m.tenant == req.tenantId
      requires r in ledger.rpcs && ledger.rpcs[r].req == req && ledger.rpcs[r].phase.Acting?
      modifies ledger, ledger.journal, ledger.audit`events, m
      ensures ledger.Valid() && ledger.Grew() && m.Valid() && r in ledger.rpcs
      ensures ledger.rpcs[r] == old(ledger.rpcs[r]).(phase :=
                if rv.Success? then Recording(rv.value) else Done(Err(LibraryError(rv.error))))
      ensures Own(ledger.steps, r) == Own(old(ledger.steps), r) + [Act(r, rv)]
      ensures old(m.log) <= m.log
      ensures rv.Success? ==> RevokedFrom(m.log[|old(m.log)|..], req, rv.value)
      ensures rv.Failure? ==> RevokeStopped(m.log[|old(m.log)|..], req, rv.error)
    {
      hide IsRun, Own, RevokedFrom, Answers, Records, Apply, Enabled;
      ledger.Interfere(r);
      ghost var before := ledger.journal.revocations;
      rv := RevokeWith(m, req);
      if rv.Success? {
        ledger.HasRevoked(r, rv.value, before);
      } else {
        ledger.LibraryRefused(r, rv.error);
      }
    }

    /** The library has revoked: write the record. */
    method RecordRevoked(r: Id, rv: Revocation, caller: string, now: int)
      returns (reply: RevokeReply, ghost event: Event, ghost ok: bool)
      requires ledger.Valid() && r in ledger.rpcs && ledger.rpcs[r].phase == Recording(rv) && ledger.rpcs[r].caller == caller
      modifies ledger, ledger.journal`revocations, ledger.audit
      ensures ledger.Valid() && ledger.Grew()
      ensures r in ledger.rpcs && ledger.rpcs[r] == old(ledger.rpcs[r]).(phase := Done(reply))
      ensures Own(ledger.steps, r) == Own(old(ledger.steps), r) + [Record(r, event, ok)]
      ensures ledger.audit.answers == old(ledger.audit.answers) + [Answered(event, ok)]
      ensures Records(event, rv, caller, ledger.ref) && event.occurredAt == now
      ensures reply == if ok then Ok else Err(AuditRecordFailed)
    {
      hide IsRun, Own, Records, Apply, Enabled;
      ledger.Interfere(r);
      var e := EventFor(rv, caller, now);
      event := e;
      reply := ledger.RecordAudit(r, e);
      ok :| ledger.audit.answers == old(ledger.audit.answers) + [Answered(e, ok)]
        && Own(ledger.steps, r) == Own(old(ledger.steps), r) + [Record(r, e, ok)]
        && reply == if ok then Ok else Err(AuditRecordFailed);
    }
  }
}
