/**
  jwtauth's TokenManager, which is not part of this repository, reduced to the contract this service
  states of it: a refresh revokes the presented token at once, so it succeeds at most once per token.
  Everything else is left open.
 */
module TokenManagers {
  import opened Wrappers
  import opened Grpc
  import opened TokenPairWire

  datatype Scope = TokenScope | AudienceScope | UserScope | UserAudienceScope

  /** A revocation a manager carried out: whose tokens, and which. */
  datatype Revocation = Revocation(tenant: string, scope: Scope, userOrToken: string, audience: string)

  /** All the revocations carried out for any tenant, in order. */
  class Journal {
    var revocations: seq<Revocation>

    constructor ()
      ensures revocations == []
    {
      revocations := [];
    }
  }

  datatype AccessInfo = AccessInfo(subject: string, audience: seq<string>, expiresAt: int)

  /** One call a manager answered: what it was asked and what it said, or the code it refused with. */
  datatype LibraryCall =
    | IssuedPair(subject: string, claims: map<string, string>, audience: seq<string>, access: string, refresh: string)
    | Refreshed(token: string, claims: map<string, string>, access: string)
    | Validated(access: string, info: AccessInfo)
    | IssuedRefresh(subject: string, claims: map<string, string>, audience: seq<string>, refresh: string)
    | Introspected(token: string, id: string, expiresAt: int)
    | Revoked(scope: Scope, userOrToken: string, revokedAudience: string)
    | Refused(code: Code)

  ghost predicate Distinct(xs: seq<string>) {
    forall i, j :: 0 <= i < j < |xs| ==> xs[i] != xs[j]
  }

  class TokenManager {
    const tenant: string
    const journal: Journal

    var live: set<string>       // refresh tokens that may still be presented
    var revoked: set<string>    // refresh tokens that may not
    var consumed: seq<string>   // the tokens successful refreshes consumed, in order
    ghost var log: seq<LibraryCall>   // the calls made through this object, in order; those of Others are not in it

    ghost predicate Valid()
      reads this
    {
      && live !! revoked && Distinct(consumed) && (forall t :: t in consumed ==> t in revoked)
      && (forall k :: 0 <= k < |log| && log[k].Refreshed? ==> log[k].token in consumed)
    }

    constructor (tenant: string, journal: Journal)
      ensures Valid() && this.tenant == tenant && this.journal == journal
      ensures live == {} && revoked == {} && consumed == [] && log == []
    {
      this.tenant, this.journal := tenant, journal;
      live, revoked, consumed, log := {}, {}, [], [];
    }

    /** What time does to a manager: no token is forgotten, revived or spent twice. */
    twostate predicate Evolved()
      reads this
    {
      old(revoked) <= revoked && old(consumed) <= consumed && old(live) + old(revoked) <= live + revoked
    }

    /** Anything other requests may do to the tokens meanwhile. */
    method Others()
      requires Valid()
      modifies this`live, this`revoked, this`consumed
      ensures Valid() && Evolved()
    {
      var l: set<string>, v: set<string>, c: seq<string> := *, *, *;
      if l !! v && revoked <= v && live + revoked <= l + v && consumed <= c
         && (forall i, j :: 0 <= i < j < |c| ==> c[i] != c[j]) && (forall t :: t in c ==> t in v)
      {
        live, revoked, consumed := l, v, c;
      }
    }

    /** Consumes the presented token; a token that was revoked before, by a refresh or not, is refused. */
    method RefreshAccessTokenWithClaims(token: string, claims: map<string, string>)
      returns (r: Result<string, Code>)
      requires Valid()
      modifies this
      ensures Valid() && Evolved()
      ensures r.Success? ==>
                && token in old(live) && live == old(live) - {token} && revoked == old(revoked) + {token}
                && consumed == old(consumed) + [token] && |r.value| < TWO_63
      ensures log == old(log) + [if r.Success? then Refreshed(token, claims, r.value) else Refused(r.error)]
    {
      var works: bool, access: string := *, *;
      if works && token in live && |access| < TWO_63 {
        live, revoked, consumed := live - {token}, revoked + {token}, consumed + [token];
        log := log + [Refreshed(token, claims, access)];
        return Success(access);
      }
      r := Failure(if token in revoked then PermissionDenied else Internal);
      log := log + [Refused(r.error)];
      Others();
    }

    method ValidateAccessToken(access: string) returns (r: Result<AccessInfo, Code>)
      requires Valid()
      modifies this`log
      ensures Valid()
      ensures log == old(log) + [if r.Success? then Validated(access, r.value) else Refused(r.error)]
    {
      var works: bool, info: AccessInfo, refusal: Code := *, *, *;
      r := if works then Success(info) else Failure(refusal);
      log := log + [if r.Success? then Validated(access, r.value) else Refused(r.error)];
    }

    /** Issues a refresh token never seen before. */
    method IssueRefreshTokenWithClaims(subject: string, claims: map<string, string>, audience: seq<string>)
      returns (r: Result<string, Code>)
      requires Valid()
      modifies this
      ensures Valid() && Evolved()
      ensures r.Success? ==>
                && revoked == old(revoked) && consumed == old(consumed)
                && r.value !in old(live) && r.value !in old(revoked) && live == old(live) + {r.value} && |r.value| < TWO_63
      ensures log == old(log) + [if r.Success? then IssuedRefresh(subject, claims, audience, r.value) else Refused(r.error)]
    {
      var works: bool, token: string := *, *;
      if works && token !in live && token !in revoked && |token| < TWO_63 {
        live := live + {token};
        log := log + [IssuedRefresh(subject, claims, audience, token)];
        return Success(token);
      }
      log := log + [Refused(Unavailable)];
      r := Failure(Unavailable);
      Others();
    }

    method IssueTokenPairWithClaims(subject: string, claims: map<string, string>, audience: seq<string>)
      returns (r: Result<(string, string), Code>)
      requires Valid()
      modifies this
      ensures Valid() && Evolved()
      ensures r.Success? ==>
                && revoked == old(revoked) && consumed == old(consumed)
                && r.value.1 !in old(live) && r.value.1 !in old(revoked) && live == old(live) + {r.value.1}
                && |r.value.0| < TWO_63 && |r.value.1| < TWO_63
      ensures log == old(log) + [if r.Success? then IssuedPair(subject, claims, audience, r.value.0, r.value.1) else Refused(r.error)]
    {
      var works: bool, access: string, token: string := *, *, *;
      if works && token !in live && token !in revoked && |access| < TWO_63 && |token| < TWO_63 {
        live := live + {token};
        log := log + [IssuedPair(subject, claims, audience, access, token)];
        return Success((access, token));
      }
      log := log + [Refused(Unavailable)];
      r := Failure(Unavailable);
      Others();
    }

    /** A token's ID and expiry. */
    method IntrospectToken(token: string) returns (r: Result<(string, int), Code>)
      requires Valid()
      modifies this`log
      ensures Valid()
      ensures log == old(log) + [if r.Success? then Introspected(token, r.value.0, r.value.1) else Refused(r.error)]
    {
      var works: bool, meta: (string, int), refusal: Code := *, *, *;
      r := if works then Success(meta) else Failure(refusal);
      log := log + [if r.Success? then Introspected(token, r.value.0, r.value.1) else Refused(r.error)];
    }

    /** Any of the four revocation calls; one that succeeds is in the journal. */
    method Revoke(scope: Scope, userOrToken: string, audience: string) returns (r: Result<(), Code>)
      requires Valid()
      modifies this, journal
      ensures Valid() && Evolved()
      ensures journal.revocations ==
                if r.Success? then old(journal.revocations) + [Revocation(tenant, scope, userOrToken, audience)]
                else old(journal.revocations)
      ensures log == old(log) + [if r.Success? then Revoked(scope, userOrToken, audience) else Refused(r.error)]
    {
      var works: bool, hit: set<string> := *, *;
      Others();
      if !works {
        log := log + [Refused(Unavailable)];
        return Failure(Unavailable);
      }
      log := log + [Revoked(scope, userOrToken, audience)];
      live, revoked := live - hit, revoked + (live * hit);
      journal.revocations := journal.revocations + [Revocation(tenant, scope, userOrToken, audience)];
      return Success(());
    }
  }
}
