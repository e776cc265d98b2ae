/**
  The interceptor chain after authentication: caller authorization (internal/interceptor/caller.go),
  validation (internal/interceptor/validation.go), idempotency, handler, in the order
  cmd/token-engine/main.go gives.
 */
module RequestChain {
  import opened Wrappers
  import opened Grpc
  import opened TokenPairWire
  import opened RequestFingerprint
  import opened IdempotencyProtocol
  import opened IdempotencyInterceptor
  import opened StoreKeys
  import opened TokenManagers
  import opened TokenHandlers
  import R = RevocationProtocol
  import opened CallerRegistry

  /** The requests the server takes; a keyed one may carry its idempotency key in a header, a field, or both. */
  datatype AnyRequest =
    | Keyed(input: Input, headerKey: string, fieldKey: string)
    | Revoking(req: R.RevokeRequest)
    | HealthCheck(method_: string)

  const SERVICE: string := "/token.v1.TokenEngine/"
  const HEALTH_PREFIX: string := "/grpc.health.v1.Health/"

  /** info.FullMethod */
  function FullMethod(req: AnyRequest): string {
    match req
    case Keyed(input, _, _) => SERVICE + (if input.IssueInput? then "IssueToken" else "RefreshToken")
    case Revoking(RevokeToken(_, _)) => SERVICE + "RevokeToken"
    case Revoking(RevokeAudience(_, _)) => SERVICE + "RevokeAllForAudience"
    case Revoking(RevokeUser(_, _)) => SERVICE + "RevokeAllUserTokens"
    case Revoking(RevokeUserAndAudience(_, _, _)) => SERVICE + "RevokeAllForUserAndAudience"
    case HealthCheck(m) => HEALTH_PREFIX + m
  }

  /** GetTenantId, where the request has one. */
  function TenantOf(req: AnyRequest): Option<string> {
    match req
    case Keyed(input, _, _) => Some(input.tenantId)
    case Revoking(r) => Some(r.tenantId)
    case HealthCheck(_) => None
  }

  function UnwrapOr(o: Option<string>, default_: string): string {
    match o case None => default_ case Some(s) => s
  }

  /** NewCallerAuthorizationInterceptor: None lets the request through. */
  function Authorize(allowed: Allowed, identity: string, req: AnyRequest): Option<Code> {
    if HEALTH_PREFIX <= FullMethod(req) then None
    else if identity == "" then Some(Internal)
    else IsPermitted(allowed, identity, UnwrapOr(TenantOf(req), ""))
  }

  const RESERVED: set<string> := {"sub", "iss", "aud", "exp", "iat", "nbf", "jti"}

  predicate HasReserved(claims: Claims) {
    claims.MadeClaims? && exists k :: k in claims.entries && k in RESERVED
  }

  /** NewValidationInterceptor: None lets the request through. */
  function Validate(req: AnyRequest): Option<Code> {
    if TenantOf(req) == Some("") then Some(InvalidArgument)
    else
      match req
      case Keyed(IssueInput(sub, _, claims, _), _, _) =>
        if sub == "" || HasReserved(claims) then Some(InvalidArgument) else None
      case Keyed(RefreshInput(token, _, claims), _, _) =>
        if token == "" || HasReserved(claims) then Some(InvalidArgument) else None
      case Revoking(RevokeToken(_, token)) => if token == "" then Some(InvalidArgument) else None
      case Revoking(RevokeUser(_, user)) => if user == "" then Some(InvalidArgument) else None
      case Revoking(RevokeAudience(_, audience)) => if audience == "" then Some(InvalidArgument) else None
      case Revoking(RevokeUserAndAudience(_, user, audience)) =>
        if user == "" || audience == "" then Some(InvalidArgument) else None
      case HealthCheck(_) => None
  }

  /** The strings that say whom or what a request is about. */
  ghost function Identifiers(req: AnyRequest): seq<string> {
    match req
    case Keyed(IssueInput(sub, _, _, _), _, _) => [sub]
    case Keyed(RefreshInput(token, _, _), _, _) => [token]
    case Revoking(RevokeToken(_, token)) => [token]
    case Revoking(RevokeAudience(_, audience)) => [audience]
    case Revoking(RevokeUser(_, user)) => [user]
    case Revoking(RevokeUserAndAudience(_, user, audience)) => [user, audience]
    case HealthCheck(_) => []
  }

  /** What the config and the API promise of a request that gets past authorization and validation. */
  ghost predicate Admissible(callers: seq<CallerEntry>, identity: string, req: AnyRequest) {
    && identity != "" && TenantOf(req).Some? && TenantOf(req).value != ""
    && Listed(callers, identity, TenantOf(req).value)
    && (forall s :: s in Identifiers(req) ==> s != "")
    && (req.Keyed? ==> !HasReserved(req.input.claims))
  }

  /** No TokenEngine method is taken for a health check. */
  lemma NotHealth(req: AnyRequest)
    ensures HEALTH_PREFIX <= FullMethod(req) <==> req.HealthCheck?
    ensures "/grpc.health.v1.Health/" <= FullMethod(req) <==> req.HealthCheck?
  {
    assert HEALTH_PREFIX[1] != SERVICE[1];
    assert !req.HealthCheck? ==> FullMethod(req)[1] == SERVICE[1];
  }

  /** Case by case: everything a request names is set, and its claims leave the registered names alone. */
  ghost predicate WellFormed(req: AnyRequest) {
    match req
    case Keyed(IssueInput(sub, tenantId, claims, _), _, _) => sub != "" && tenantId != "" && ClaimsAllowed(claims)
    case Keyed(RefreshInput(token, tenantId, claims), _, _) => token != "" && tenantId != "" && ClaimsAllowed(claims)
    case Revoking(RevokeToken(tenantId, token)) => token != "" && tenantId != ""
    case Revoking(RevokeAudience(tenantId, audience)) => audience != "" && tenantId != ""
    case Revoking(RevokeUser(tenantId, user)) => user != "" && tenantId != ""
    case Revoking(RevokeUserAndAudience(tenantId, user, audience)) => user != "" && audience != "" && tenantId != ""
    case HealthCheck(_) => true
  }

  /** No claim has one of the seven names of section 4.1 of RFC 7519. */
  ghost predicate ClaimsAllowed(claims: Claims) {
    claims.MadeClaims? ==> claims.entries.Keys !! {"iss", "sub", "aud", "exp", "nbf", "iat", "jti"}
  }

  lemma ReservedNames(claims: Claims)
    ensures HasReserved(claims) <==> !ClaimsAllowed(claims)
  {
  }

  /** Validation wants a tenant, every identifier, and no reserved claim. */
  lemma ValidatesIff(req: AnyRequest)
    requires !req.HealthCheck?
    ensures Validate(req) in {None, Some(InvalidArgument)}
    ensures Validate(req).None? <==>
              && TenantOf(req).value != "" && (forall s :: s in Identifiers(req) ==> s != "")
              && (req.Keyed? ==> !HasReserved(req.input.claims))
    ensures Validate(req).None? <==> WellFormed(req)
  {
    hide HasReserved, ClaimsAllowed;
    if req.Keyed? { ReservedNames(req.input.claims); }
    var ids := Identifiers(req);
    assert ids[0] in ids && ids[|ids| - 1] in ids;
  }

  /** A TokenEngine request gets past both exactly when it is admissible. */
  lemma PassesIffAdmissible(allowed: Allowed, config: CallerRegistryConfig, identity: string, req: AnyRequest)
    requires ValidCallers(config) && TableOf(allowed, config.callers) && !req.HealthCheck?
    ensures Authorize(allowed, identity, req).None? && Validate(req).None? <==>
              Admissible(config.callers, identity, req)
  {
    hide FullMethod, IsPermitted, HasReserved, Listed;
    NotHealth(req);
    var tenant := TenantOf(req).value;
    if tenant != "" {
      PermittedIffListed(allowed, config, identity, tenant);
    }
    ValidatesIff(req);
  }

  /** Why an inadmissible request is refused. */
  ghost function Refusal(callers: seq<CallerEntry>, identity: string, req: AnyRequest): Code
    requires !req.HealthCheck?
  {
    var tenant := TenantOf(req).value;
    if identity == "" then Internal
    else if tenant != "" && !Listed(callers, identity, tenant) then PermissionDenied
    else InvalidArgument
  }

  lemma RefusedFor(allowed: Allowed, config: CallerRegistryConfig, identity: string, req: AnyRequest)
    requires ValidCallers(config) && TableOf(allowed, config.callers) && !req.HealthCheck?
    ensures Authorize(allowed, identity, req).Some? ==>
              Authorize(allowed, identity, req).value == Refusal(config.callers, identity, req)
    ensures Authorize(allowed, identity, req).None? && Validate(req).Some? ==>
              Validate(req).value == Refusal(config.callers, identity, req)
    ensures identity == "" ==> Authorize(allowed, identity, req) == Some(Internal)
    ensures identity != "" && TenantOf(req) != Some("") ==>
              Authorize(allowed, identity, req)
              == if Listed(config.callers, identity, TenantOf(req).value) then None else Some(PermissionDenied)
    ensures identity != "" && TenantOf(req) == Some("") ==>
              Authorize(allowed, identity, req) == None && Validate(req) == Some(InvalidArgument)
    ensures Validate(req) == if WellFormed(req) then None else Some(InvalidArgument)
  {
    hide FullMethod, HasReserved, Listed;
    NotHealth(req);
    ValidatesIff(req);
    if TenantOf(req).value != "" {
      PermittedIffListed(allowed, config, identity, TenantOf(req).value);
    }
  }

  datatype AnyReply = PairReply(pair: TokenPair) | RevokeReplied(reply: R.RevokeReply) | HealthReply | Rejected(code: Code)

  class Server {
    const config: CallerRegistryConfig
    const allowed: Allowed
    const idempotency: Interceptor
    const handler: TokenHandler

    ghost predicate Valid()
      reads idempotency, idempotency.st, handler.registry.Values, handler.ledger, handler.ledger.journal, handler.ledger.audit
    {
      && ValidCallers(config) && TableOf(allowed, config.callers)
      && idempotency.Valid() && handler.Valid()
      && idempotency !in handler.Footprint() && idempotency.st !in handler.Footprint()
    }

    constructor (config: CallerRegistryConfig, allowed: Allowed, idempotency: Interceptor, handler: TokenHandler)
      requires ValidCallers(config) && TableOf(allowed, config.callers)
      requires idempotency.Valid() && handler.Valid()
      requires idempotency !in handler.Footprint() && idempotency.st !in handler.Footprint()
      ensures Valid() && this.config == config && this.idempotency == idempotency && this.handler == handler
    {
      this.config, this.allowed, this.idempotency, this.handler := config, allowed, idempotency, handler;
    }

    /** The tenant whose manager a request may touch. */
    function Tenant(req: AnyRequest): string {
      UnwrapOr(TenantOf(req), "")
    }

    /** Nothing was written, asked or revoked. */
    twostate predicate Untouched(tenantId: string)
      reads idempotency, idempotency.st, handler.ledger, handler.ledger.journal, handler.ledger.audit, handler.ManagerOf(tenantId)
    {
      && unchanged(idempotency) && unchanged(idempotency.st) && unchanged(handler.ledger)
      && unchanged(handler.ledger.journal) && unchanged(handler.ledger.audit) && unchanged(handler.ManagerOf(tenantId))
    }

    /**
      What becomes of a keyed RPC past validation: with a client key it goes through the claim
      protocol; without one the handler answers, and the store is not touched.
     */
    twostate predicate KeyedServed(r: Id, req: AnyRequest, calls: seq<LibraryCall>, at: int, reply: AnyReply)
      requires req.Keyed?
      reads idempotency, idempotency.st
    {
      var key := ResolveClientKey(req.headerKey, req.fieldKey);
      if key.None? then unchanged(idempotency) && unchanged(idempotency.st) && calls == [] && reply == Rejected(InvalidArgument)
      else if key.value == "" then
        && unchanged(idempotency) && unchanged(idempotency.st)
        && exists result: Result<TokenPair, Code> ::
             Conveys(reply, result) && HandlerReplied(req.input, handler.Found(req.input.tenantId), calls, at, result)
      else
        && r in idempotency.sessions && idempotency.sessions[r].req == Request(req.input, key.value)
        && idempotency.sessions[r].phase.Done? && ValidConfig(idempotency.c)
        && Conveys(reply, ReplyOf(idempotency.sessions[r].phase.outcome))
        && old(idempotency.st.answers) <= idempotency.st.answers
        && exists own ::
             && OwnSteps(idempotency.steps, r) == OwnSteps(old(idempotency.steps), r) + own
             && KeyedPath(idempotency.c, own, idempotency.st.answers[|old(idempotency.st.answers)|..], calls, r,
                          Request(req.input, key.value), handler.Found(req.input.tenantId), at, idempotency.sessions[r].phase.outcome)
    }

    /** What becomes of a revoke RPC past validation: the four calls in order, and the reply they decide. */
    twostate predicate RevokeServed(r: Id, req: AnyRequest, caller: string, calls: seq<LibraryCall>, now: int, reply: AnyReply)
      requires req.Revoking?
      reads idempotency, idempotency.st, handler.ledger, handler.ledger.audit
    {
      && unchanged(idempotency) && unchanged(idempotency.st) && reply.RevokeReplied?
      && r in handler.ledger.rpcs && handler.ledger.rpcs[r] == R.RevokeRpc(req.req, caller, R.Done(reply.reply))
      && old(handler.ledger.audit.answers) <= handler.ledger.audit.answers
      && exists own ::
           && Own(handler.ledger.steps, r) == Own(old(handler.ledger.steps), r) + own
           && RevokePath(own, handler.ledger.audit.answers[|old(handler.ledger.audit.answers)|..], calls, r, req.req, caller,
                         handler.ledger.ref, handler.Found(req.req.tenantId), now, reply.reply)
    }

    /**
      Serves one request. Whatever writes the idempotency store, calls a token manager, revokes or
      audits is admissible; whatever is not admissible touches nothing and is told why.
     */
    method Serve(r: Id, identity: string, req: AnyRequest, now: int)
      returns (reply: AnyReply, ghost calls: seq<LibraryCall>, ghost at: int)
      requires Valid() && r !in idempotency.sessions && r !in handler.ledger.rpcs
      requires req.Keyed? ==> ValidInput(req.input)
      modifies idempotency, idempotency.st`db, idempotency.st`now, idempotency.st`answers
      modifies handler.ledger, handler.ledger.journal, handler.ledger.audit, handler.ManagerOf(Tenant(req))
      ensures Valid() && idempotency.Grew() && handler.ledger.Grew()
      ensures handler.Calls(Tenant(req)) == old(handler.Calls(Tenant(req))) + calls
      ensures !Admissible(config.callers, identity, req) ==>
                && Untouched(Tenant(req))
                && reply == if req.HealthCheck? then HealthReply else Rejected(Refusal(config.callers, identity, req))
      ensures Admissible(config.callers, identity, req) && req.Revoking? ==>
                RevokeServed(r, req, identity, calls, now, reply)
      ensures Admissible(config.callers, identity, req) && req.Keyed? ==>
                KeyedServed(r, req, calls, at, reply) && unchanged(handler.ledger) && unchanged(handler.ledger.audit)
    {
      hide Admissible, FullMethod, Refusal, Authorize, Validate, KeyedServed, RevokeServed;
      calls, at := [], now;
      if req.HealthCheck? {
        HealthPasses(allowed, config.callers, identity, req);
      } else {
        PassesIffAdmissible(allowed, config, identity, req);
        RefusedFor(allowed, config, identity, req);
        ValidatesIff(req);
      }
      var denied := Authorize(allowed, identity, req);
      if denied.Some? { return Rejected(denied.value), calls, at; }
      var malformed := Validate(req);
      if malformed.Some? { return Rejected(malformed.value), calls, at; }
      reply, calls, at := Forward(r, identity, req, now);
    }

    /** Past validation: the idempotency interceptor, which lets revocations through, and the handler. */
    method Forward(r: Id, identity: string, req: AnyRequest, now: int)
      returns (reply: AnyReply, ghost calls: seq<LibraryCall>, ghost at: int)
      requires Valid() && r !in idempotency.sessions && r !in handler.ledger.rpcs
      requires req.Keyed? ==> ValidInput(req.input) && req.input.tenantId != ""
      modifies idempotency, idempotency.st`db, idempotency.st`now, idempotency.st`answers
      modifies handler.ledger, handler.ledger.journal, handler.ledger.audit, handler.ManagerOf(Tenant(req))
      ensures Valid() && idempotency.Grew() && handler.ledger.Grew()
      ensures handler.Calls(Tenant(req)) == old(handler.Calls(Tenant(req))) + calls
      ensures req.HealthCheck? ==> Untouched(Tenant(req)) && reply == HealthReply
      ensures req.Revoking? ==> RevokeServed(r, req, identity, calls, now, reply)
      ensures req.Keyed? ==> KeyedServed(r, req, calls, at, reply) && unchanged(handler.ledger) && unchanged(handler.ledger.audit)
    {
      hide KeyedServed, RevokeServed, FullMethod, TableOf, ValidCallers;
      calls, at := [], now;
      match req {
        case Keyed(input, headerKey, fieldKey) =>
          reply, calls, at := ForwardKeyed(r, input, headerKey, fieldKey);
        case Revoking(revoke) =>
          reply, calls := ForwardRevoke(r, revoke, identity, now);
        case HealthCheck(_) =>
          reply := HealthReply;
      }
    }

    method ForwardKeyed(r: Id, input: Input, headerKey: string, fieldKey: string)
      returns (reply: AnyReply, ghost calls: seq<LibraryCall>, ghost at: int)
      requires Valid() && r !in idempotency.sessions && ValidInput(input) && input.tenantId != ""
      modifies idempotency, idempotency.st`db, idempotency.st`now, idempotency.st`answers, handler.ManagerOf(input.tenantId)
      ensures Valid() && idempotency.Grew()
      ensures handler.Calls(input.tenantId) == old(handler.Calls(input.tenantId)) + calls
      ensures KeyedServed(r, Keyed(input, headerKey, fieldKey), calls, at, reply)
    {
      hide TableOf, ValidCallers, IsRun, KeyedPath, HandlerReplied, OwnSteps, R.IsRun, Conveys;
      var result;
      ghost var own, answers;
      result, own, answers, calls, at := idempotency.Handle(r, input, headerKey, fieldKey, handler);
      reply := AsReply(result);
      ShowConveys(result);
    }

    method ForwardRevoke(r: Id, req: R.RevokeRequest, identity: string, now: int)
      returns (reply: AnyReply, ghost calls: seq<LibraryCall>)
      requires Valid() && r !in handler.ledger.rpcs
      modifies handler.ledger, handler.ledger.journal, handler.ledger.audit, handler.ManagerOf(req.tenantId)
      ensures Valid() && handler.ledger.Grew()
      ensures handler.Calls(req.tenantId) == old(handler.Calls(req.tenantId)) + calls
      ensures RevokeServed(r, Revoking(req), identity, calls, now, reply)
    {
      hide TableOf, ValidCallers, IsRun, RevokePath, Own, R.IsRun;
      var answer;
      ghost var own, answers;
      answer, own, answers, calls := handler.Revoke(r, req, identity, now);
      reply := RevokeReplied(answer);
    }
  }

  /** Health checks are served to anyone, but are not admissible where it matters. */
  lemma HealthPasses(allowed: Allowed, callers: seq<CallerEntry>, identity: string, req: AnyRequest)
    requires req.HealthCheck?
    ensures Authorize(allowed, identity, req).None? && Validate(req).None? && !Admissible(callers, identity, req)
  {
    hide IsPermitted;
    NotHealth(req);
  }

  /** The interceptor's (response, error) as the server's reply. */
  function AsReply(r: Result<TokenPair, Code>): AnyReply {
    match r case Success(pair) => PairReply(pair) case Failure(code) => Rejected(code)
  }

  /** The client gets exactly this pair, or exactly this error. */
  ghost predicate Conveys(reply: AnyReply, result: Result<TokenPair, Code>) {
    && (forall pair :: reply == PairReply(pair) <==> result == Success(pair))
    && (forall code :: reply == Rejected(code) <==> result == Failure(code))
  }

  lemma ShowConveys(result: Result<TokenPair, Code>)
    ensures Conveys(AsReply(result), result)
  {
  }
}
