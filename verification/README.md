# A verified model of token-engine

This project models the parts of the token service that have to be right under concurrency and
failure, and proves what they promise. `dafny verify dfyconfig.toml` checks all of it.

- **The idempotency claim protocol.** `IdempotencyProtocol` is a transition system over a clock, a
  store whose entries expire, and one session per keyed request; every store call is one atomic step,
  everything interleaves, every call may fail, and a failed write may or may not have reached Redis.
  `IdempotencyRuns`, `IdempotencyProvenance`, `IdempotencyLifecycle` and `IdempotencyAccounting` prove
  theorems about all runs; `IdempotencyLimits` says exactly when exclusion fails and when a stored
  record stands, and exhibits the runs.
  `IdempotencyInterceptor` is the code itself, as objects whose methods update store, counters and
  sessions; each store call is shown to be one step, with other requests at work in between.
- **What agreement between callers rests on.** `IdempotencyRecord`, `TokenPairWire`, `Base64`, `Json`,
  `RequestFingerprint` and `StoreKeys` are the record formats, the fingerprint and the keys, down to bytes;
  `Formats` checks them against their published descriptions.
- **The TTL lock and its clients.** `TtlLock`; `KeyRotation`, `KeyRotationLimits` and `RotationGuardLoop`
  for the rotation guard; `Reconciliation` for the reconciler, its ticker loop and its health check.
- **The service around them.** `RevocationProtocol` is a second transition system, for the revoke RPCs
  and their audit; `TokenHandlers` holds the handlers themselves (issue, refresh, revoke) over
  `TokenManagers`; `TenantLifecycle` and `TenantRegistry`; `CallerRegistry` and `RequestChain`, which
  puts authorization, validation, idempotency and handlers together; `RefreshRetry` and `ServerRetry`, a
  client's retry through interceptor, handler and manager, and through the whole server.
- **Two small algorithms.** `StaticCallerKeys` and `Redaction`.

How things are rendered: a Go string or byte slice is a `string` whose characters are bytes; times and
durations are integers in nanoseconds, with one clock shared by all replicas and Redis; SHA-256 is a
parameter of which only the length of its result is used, and freedom from collisions is a premise about
the finitely many requests of a run, stated where it is used. What the outside world decides (library
answers, cancellation, a stack that cannot be built) comes from objects that stand for it, and which calls
Redis answers from an arbitrary function `net`; code that gives up by itself does not meet its contract.
These objects keep records of what they were asked and what they answered (`CallLog`, `answers`, `log`,
`runs`, `built`), and the contracts say what a method did in terms of these records. Between any two calls `Interfere` and `Others` let other requests and replicas do whatever they may do: take protocol
steps, move the clock, and issue, spend and revoke tokens. A library call that fails may have done any
of that too. A store write that fails takes effect at that moment or never: one that reaches Redis later,
and a SetNX the client library retries after its first try was carried out, are outside the model, and
`IdempotencyLimits.RecordStandsIff` relies on that.

Where the code and its comments disagree the model follows the code. The comments at
`internal/handler/token.go:17-21` and `internal/audit/store.go:12` promise that a revocation is recorded
before it happens and aborted if the record fails; the code revokes first.
`RevocationProtocol.AuditFailureDoesNotAbort` shows the difference, and
`RevocationProtocol.RecordedIffAnswerOk` says when a revocation is recorded. The rotation guard reads
its stamp before it takes the lock, so the bound is one rotation per replica and window, which
`KeyRotationLimits.BoundReached` shows to be tight. It also takes a failed read for no stamp;
`KeyRotationLimits.SpacingKeptIff` says exactly when that costs a replica its spacing. A replica's ticks
come a window apart, so in the deployed loop that is the tick after its rotation; two rotations in one
instant take a tick received a whole period late.

## Model

| member | source | states |
|---|---|---|
| IdempotencyRuns.AtMostOneInFlight | internal/interceptor/idempotency.go:348-397 | At most once, key by key: as long as SetNX for a key has not failed and its claim winners have kept within pendingTTL, whatever happens on other keys, the key never has two handlers in flight |
| IdempotencyRuns.WaitingIsAborted | internal/interceptor/idempotency.go:355-376 | And while a key has a handler in flight, every other request that reads the key is answered Aborted, changes no record and is not counted |
| IdempotencyLimits.OverlapIff | internal/interceptor/idempotency.go:348-383 | With no premise at all, two handlers for one key overlap somewhere in a run if and only if at some step SetNX fails, or finds no live record, while a handler for that key is still at work |
| IdempotencyRuns.CompletedUntilExpiry | internal/interceptor/idempotency.go:385-394 | If the winner was alone on its key when it promoted and no SetNX for the key fails afterwards, then until ttl after the promote the key holds exactly its record and no handler for the key is in flight; no premise on timing, other keys or earlier times |
| IdempotencyRuns.CalmMeansAlone | internal/interceptor/idempotency.go:348-394 | On a key that meets the at-most-once premise every promote is alone, so the replay theorems apply |
| IdempotencyRuns.RecordStands | internal/interceptor/idempotency.go:385-394 | Read at any such moment, that record is the winner's pair with the winner's fingerprint |
| IdempotencyRuns.ReplayUntilExpiry | internal/interceptor/idempotency.go:355-376 | During that time no handler for the key starts, a reader gets the winner's pair if its fingerprint agrees and FailedPrecondition if not, and every OK reply is the winner's pair |
| IdempotencyRuns.RetryIsTransparent | internal/interceptor/idempotency.go:448-478 | During that time every repeat with the same client key and content that meets no Get error is answered with exactly the first pair, and its handler has not run at any point of the run |
| IdempotencyRuns.OneSessionMoves | internal/interceptor/idempotency.go:300-398 | A step of the protocol turns no clock back and moves at most the session of its own request |
| IdempotencyRuns.ExclusiveStep | internal/interceptor/idempotency.go:348-383 | Every step but a failed SetNX for the key keeps the key's invariant: whoever is in flight on it holds it with its own pending claim, alone |
| IdempotencyProvenance.ServedPairWasReturned | internal/interceptor/idempotency.go:362-373 | In every run, with errors, lost or late promotes and expiry: a pair served from a fingerprinted record was returned earlier by the handler of a request with the same key and fingerprint, hence the same tenant, RPC and client key for tenants free of ':', and the same content unless the digest collides on the requests seen |
| IdempotencyProvenance.ReplyByContent | internal/interceptor/idempotency.go:366-373 | Reading a live fingerprinted record answers by content alone: the recorded pair for the content that produced it, FailedPrecondition for any other |
| IdempotencyProvenance.SoundRun | internal/interceptor/idempotency.go:348-397 | Invariant of every run: each fingerprinted record, and each pair served from one, is backed by a handler call for the same key and fingerprint |
| IdempotencyLifecycle.LiveRecordOnlyCompletes | internal/interceptor/idempotency.go:348-394 | While a record is live it can only be replaced by a completed record: losers and failed handlers neither write, extend nor delete it |
| IdempotencyLifecycle.PendingOnlyByClaim | internal/interceptor/idempotency.go:348-353 | A record becomes a fresh claim only through a SetNX that found no live record, and only by that request's own claim |
| IdempotencyLifecycle.PendingIsLastClaim | internal/interceptor/idempotency.go:348-383 | As long as no completed record was written, the record is the claim of the last request that took the key |
| IdempotencyLifecycle.AbandonedClaimFreesKey | internal/interceptor/idempotency.go:378-383 | After a claim whose handler fails or never returns, the next SetNX wins if and only if pendingTTL has passed since the claim |
| IdempotencyAccounting.OutcomeAccounting | internal/interceptor/idempotency.go:348-397 | In every finished run and for each RPC: requests that reached the claim = hits + misses + mismatches + Aborted replies; misses = handler calls under a claim, hits = cached replies, mismatches = fingerprint FailedPrecondition replies |
| IdempotencyAccounting.CountedRun | internal/interceptor/idempotency.go:335-346 | At every point of a run each labelled counter is the number of requests that ended that way |
| IdempotencyLimits.LateHandlerOverlaps | internal/interceptor/idempotency.go:348-383 | For every configuration and request there is a run with no store error in which two handlers for one key overlap: the timing premise is needed |
| IdempotencyLimits.ReplayHappens | internal/interceptor/idempotency.go:348-394 | The premises of the replay theorems can be met: for every configuration, request and pair there is a run whose retry is served the stored pair |
| IdempotencyLimits.RecordStandsIff | internal/interceptor/idempotency.go:385-394 | With no premise on timing, errors or other keys: until it expires, a stored record stands if and only if no promote on its key in between writes another one |
| IdempotencyLimits.LatePromoteOverwrites | internal/interceptor/idempotency.go:385-394 | That happens: promotion is not compare-and-set, and a handler that outlived its claim replaces the newer record the other client was answered from |
| IdempotencyProtocol.CompletedValueResolves | internal/interceptor/idempotency.go:385-394 | The record a promote writes resolves to the returned pair and the request's own fingerprint |
| IdempotencyProtocol.KeyNamesRequest | internal/interceptor/idempotency.go:329-330 | The key of a request is the text of its tenant, RPC and client key, and none of the service's lock and stamp keys |
| IdempotencyProtocol.SameKeyMeans | internal/interceptor/idempotency.go:329-330 | Requests of tenants free of ':' share a key only if they share tenant, RPC and client key |
| IdempotencyProtocol.ReadReplies | internal/interceptor/idempotency.go:355-376 | What a read that answers leads to, case by case: Aborted and nothing counted for no record, a pending or an unreadable one; the pair of a completed record that has the request's own fingerprint or none; FailedPrecondition for another fingerprint; never a handler call, and no record changes |
| IdempotencyProtocol.FailedReadReplies | internal/interceptor/idempotency.go:355-361 | A read that fails is answered Aborted, changes no record and is not counted |
| IdempotencyInterceptor.RedisIdempotencyStore.Get | internal/store/redis.go:34-43 | Succeeds exactly if Redis answers, with the live value of the key or a miss |
| IdempotencyInterceptor.RedisIdempotencyStore.SetNX | internal/store/redis.go:50-56 | Succeeds exactly if Redis answers, says whether the key was free and writes it with pendingTTL only then; a failed one may have done so |
| IdempotencyInterceptor.RedisIdempotencyStore.Set | internal/store/redis.go:61-63 | Succeeds exactly if Redis answers, and overwrites with ttl whatever was there; a failed one may have done so |
| IdempotencyInterceptor.Interceptor.Claim | internal/interceptor/idempotency.go:348-353 | One SetNX and the protocol step that its answer is; a store error degrades open and counts as won |
| IdempotencyInterceptor.Interceptor.Inspect | internal/interceptor/idempotency.go:355-376 | After a lost claim one Get and the step that its answer is; the reply is what that answer means, case by case, Aborted leaves the counters alone, and the handler is never called |
| IdempotencyInterceptor.Interceptor.Returned | internal/interceptor/idempotency.go:378-383 | A handler error ends the request and leaves the claim in place; success goes on to the promote |
| IdempotencyInterceptor.Interceptor.Promote | internal/interceptor/idempotency.go:385-397 | One unconditional Set of the completed record, if the pair marshals; the caller gets the pair whether or not it worked |
| IdempotencyInterceptor.Interceptor.CallHandler | internal/interceptor/idempotency.go:378-379 | The reply is the handler's: an OK one is made of what the library answered to exactly this request, an error is the answer to the last library call or, with nothing asked, the registry's for an unknown tenant |
| IdempotencyInterceptor.Interceptor.HandleKeyed | internal/interceptor/idempotency.go:329-397 | The whole keyed path, with other requests at work between any two calls: the key asked for is the text of tenant, RPC and client key; the steps are what store and handler answered; the handler is called exactly if the claim was won, and its result is what registry and library answered and is the reply; otherwise the reply is what the record read means |
| IdempotencyInterceptor.PathMeans | internal/interceptor/idempotency.go:355-397 | A lost claim asked nothing of the library and is answered by the value read under the same key; a claim won or failed is answered with what registry and library answered the handler, errors included |
| IdempotencyInterceptor.Interceptor.Handle | internal/interceptor/idempotency.go:300-398 | Both handlers: an empty tenant and conflicting keys are refused and touch nothing; unkeyed requests get the handler's own reply, OK or error, and leave store and history alone; anything else goes through the protocol |
| RefreshRetry.Repeat | internal/interceptor/idempotency.go:448-478 | A repeat of an answered request whose record is protected returns the first pair, and nothing is asked of the token manager on its behalf |
| RefreshRetry.RefreshTwice | internal/interceptor/idempotency.go:448-499 | End to end, with other requests at work throughout: a keyed RefreshToken and its repeat return the very same pair, the library was asked for it once, and the presented token is spent exactly once |
| RefreshRetry.StoredIsAnswered | internal/interceptor/idempotency.go:487-499 | The request whose record a step stores is answered OK with that pair for good |
| ServerRetry.ServeTwice | cmd/token-engine/main.go:279-289 | Through the whole chain: two admissible requests with one client key and content, wherever the key travels, get the same OK reply with the stored pair; the library made it for the first and is asked nothing by the second, and a refresh spends its token exactly once |
| ServerRetry.ServeKeyed | cmd/token-engine/main.go:279-289 | The server's reply to a keyed request is exactly the pair or the error the request ended with, and its library calls are those of its handler, or none |
| IdempotencyRecord.DecodeEncodeRecord | internal/interceptor/idempotency.go:61-80 | Every envelope reads back as the record it was made from, fields left out because they are empty included |
| IdempotencyRecord.ResolveCompleted | internal/interceptor/idempotency.go:194-204 | A completed record resolves to its pair and fingerprint, for every pair that marshals, the empty one included |
| IdempotencyRecord.ResolveOtherState | internal/interceptor/idempotency.go:194-204 | So does an envelope in any state but pending |
| IdempotencyRecord.ResolvePending | internal/interceptor/idempotency.go:67-69 | The pending constant resolves to still pending |
| IdempotencyRecord.PendingIsEnvelope | internal/interceptor/idempotency.go:67-69 | The pending constant is the envelope of a pending record with nothing else in it |
| IdempotencyRecord.ResolveLegacy | internal/interceptor/idempotency.go:206-211 | Legacy TokenPair bytes never carry the magic and resolve to their pair without a fingerprint |
| TokenPairWire.UnmarshalMarshal | gen/v1/token_engine.pb.go:396-403 | The four-field wire form round-trips for every pair with valid UTF-8 strings and int64 expiries, negative ones included |
| TokenPairWire.MarshalFirstByte | gen/v1/token_engine.pb.go:396-403 | A marshalled pair is empty or starts with tag 0x0A, 0x12, 0x18 or 0x20 |
| Base64.DecodeEncode | internal/interceptor/idempotency.go:61-65 | The response bytes survive base64 (section 4 of RFC 4648) |
| Json.UnquoteQuote | internal/interceptor/idempotency.go:74-80 | A JSON string literal as encoding/json writes it reads back as the text and stops at its own closing quote |
| Json.QuoteInjective | internal/interceptor/idempotency.go:88-95 | No two valid UTF-8 texts share a literal, whatever follows (section 7 of RFC 8259) |
| Json.InvalidUtf8Collides | internal/interceptor/idempotency.go:88-95 | Validity is needed: two different bad bytes are written alike |
| RequestFingerprint.CanonicalIff | internal/interceptor/idempotency.go:97-138 | Two requests have the same canonical rendering if and only if they are the same RPC with equal fields, audiences as multisets and claims as maps |
| RequestFingerprint.FingerprintIff | internal/interceptor/idempotency.go:88-95 | Fingerprints agree if and only if the contents do, unless the digest collides on these two renderings |
| RequestFingerprint.ComputeIssueFingerprint | internal/interceptor/idempotency.go:109-118 | Sorts a copy: the request's own audiences are unchanged and the result is the fingerprint of the request |
| RequestFingerprint.HexDigestInjective | internal/interceptor/idempotency.go:93-94 | The hex form loses nothing of the digest |
| ByteStrings.SortedIsCanonical | internal/interceptor/idempotency.go:110-111 | Sorted audiences are equal if and only if the audiences are equal as multisets |
| ByteStrings.LeqIff | internal/interceptor/idempotency.go:110-111 | The order of the sort is that of the first byte that differs, a prefix coming first |
| ByteStrings.ValidUtf8Iff | gen/v1/token_engine.pb.go:396-403 | Valid UTF-8, as the wire form and JSON need it, is exactly what encodes Unicode scalar values one after the other: no overlong forms, no surrogates |
| Formats.Alphabet | internal/interceptor/idempotency.go:61-65 | The base64 alphabet is that of table 1 of RFC 4648 |
| Formats.GroupIs24Bits | internal/interceptor/idempotency.go:61-65 | Four base64 digits are the 24 bits of three bytes in order |
| Formats.Base64Vectors | internal/interceptor/idempotency.go:61-65 | The test vectors of section 10 of RFC 4648, padding included |
| Formats.EscapeTable | internal/interceptor/idempotency.go:74-80 | How each ASCII character is written inside a JSON literal, HTML characters escaped |
| Formats.StringField | gen/v1/token_engine.pb.go:396-403 | A string field is its tag, its length and its bytes |
| Formats.SmallVarint | gen/v1/token_engine.pb.go:396-403 | A varint has its least significant seven bits first |
| Formats.MinusOneField | gen/v1/token_engine.pb.go:396-403 | A negative number is written as its 64-bit two's complement, in ten bytes |
| Formats.MessageText | gen/v1/token_engine.pb.go:396-403 | A whole message: the two tokens and their lifetimes are fields 1 to 4, in this order |
| Formats.CompletedText | internal/interceptor/idempotency.go:71-80 | The bytes of a completed record: magic, state, base64 response, fingerprint, in this order |
| Formats.IssueText | internal/interceptor/idempotency.go:97-118 | The text that is hashed of an issue request: its members in order, no claims as null, audiences sorted |
| Formats.RefreshText | internal/interceptor/idempotency.go:120-138 | The text that is hashed of a refresh request |
| StoreKeys.IdempotencyKeyInjective | internal/interceptor/idempotency.go:329-330 | For tenants free of ':' the record key determines tenant, RPC and client key, for arbitrary client keys |
| StoreKeys.TenantsCollideIff | internal/interceptor/idempotency.go:329-330 | With no assumption on names, two distinct tenants can share a record key if and only if one continues the other with an RPC name as a whole field |
| StoreKeys.FamiliesDisjoint | cmd/token-engine/main.go:45-48 | Idempotency, rotation lock, reconciliation lock and rotation stamp keys never meet, and the last three determine their tenant, whatever the names are |
| StoreKeys.KeyTexts | cmd/token-engine/main.go:45-48 | The text of each of the four keys |
| StoreKeys.ResolveClientKey | internal/interceptor/idempotency.go:147-156 | Conflict exactly when both sources are set and differ; otherwise the value is that of every source that is set, and empty only if none is |
| TtlLock.MutualExclusion | internal/lock/lock.go:51-64 | Key by key, in any interleaving of acquires, expiry and late or repeated releases: if work under the key ends inside its TTL, the key never has two holders at work |
| TtlLock.OverlapIff | internal/lock/lock.go:51-64 | With no premise, two holders are ever at work on one key if and only if some acquire finds it free while another holder still works |
| TtlLock.TokensPlacedRun | internal/lock/lock.go:51-64 | In every run a stored token was drawn, and a handle's token is stored nowhere but under its own key |
| TtlLock.HeldRun | internal/lock/lock.go:51-64 | Under that premise a holder at work still owns its key's entry, with its own deadline |
| TtlLock.LateWorkOverlaps | internal/lock/lock.go:51-64 | For every key and TTL there is a run in which work that outlives its TTL overlaps with the next holder's |
| TtlLock.ReleaseOwnOnly | internal/lock/lock.go:69-72 | Release deletes the entry exactly when it is live and holds the releaser's token, and changes nothing else |
| TtlLock.ReleaseSparesOthers | internal/lock/lock.go:66-72 | A release, however late and however often, leaves every other holder's lock in place |
| TtlLock.ReleaseIdempotent | internal/lock/lock.go:66-72 | Releasing twice is releasing once |
| TtlLock.AcquireSucceedsIff | internal/lock/lock.go:51-64 | An acquire succeeds if and only if nothing is stored under the key or what is stored has expired |
| TtlLock.RedisLock.Acquire | internal/lock/lock.go:51-64 | One acquire step on this key with a token nobody drew before; it succeeds exactly if Redis answers and the key is free, and only then there is a new handle |
| TtlLock.RedisLock.Release | internal/lock/lock.go:69-72 | One compare-and-delete step, carried out if Redis answers and perhaps if not, marks the handle released |
| KeyRotation.AtMostOnePerReplica | cmd/token-engine/main.go:219-255 | With rotations inside their lock TTL, any k replicas that never read the stamp blindly make at most k rotations of a tenant in any half-open window of the guard's length, counting those they recorded and those still to be stamped; lost stamp writes and other replicas' reads need no premise |
| KeyRotation.RotationsApart | cmd/token-engine/main.go:231-250 | With rotations on time up to now, the recorded rotations of a replica that has not read the stamp blindly are a window apart, from the stamp of one to the next rotation |
| KeyRotation.StampMonotone | cmd/token-engine/main.go:231-250 | With rotations on time the stamp never runs backwards and is never lost, whatever reads and writes of it fail |
| KeyRotation.InvariantRun | cmd/token-engine/main.go:219-255 | The invariant of every run that is on time so far: guards past the lock hold it alone, and stamps never run ahead of the clock or backwards |
| KeyRotation.SpacedRun | cmd/token-engine/main.go:231-250 | One replica's invariant, under its own premise on reads only: its recorded rotations are a window apart, and so is the one it may be making |
| KeyRotation.OwnedRun | cmd/token-engine/main.go:240-251 | Without any premise: every guard past the lock works under a token of its own for this lock |
| KeyRotation.ReadDecides | cmd/token-engine/main.go:231-239 | A read lets the replica go on exactly if there is no stamp or the stamp is at least a window old; a failed read always does |
| KeyRotationLimits.BoundReached | cmd/token-engine/main.go:231-250 | The bound is tight: for every N there is a run on time and without a failed read in which N replicas rotate N times in one instant, because the stamp is read before the lock is taken |
| KeyRotationLimits.StaleStampRotates | cmd/token-engine/main.go:231-251 | Progress: from any run on time with the lock free, an idle replica that reads a stamp at least a window old, or none, can rotate and record it at once |
| KeyRotationLimits.SpacingKeptIff | cmd/token-engine/main.go:231-250 | Exactly when a failed read, taken for no stamp, costs the spacing: with the lock free and the replica idle, every way on in which it does not read blindly again keeps its rotations a window apart if and only if it has recorded none within the last window |
| KeyRotationLimits.BlindReadBreaks | cmd/token-engine/main.go:231-250 | From any run on time with the lock free, an idle replica that rotated less than a window ago can read blindly and then rotate at once, however long the run was in order before |
| RotationGuardLoop.RotationGuards.OnTick | cmd/token-engine/main.go:229-251 | One tick, with all other replicas at work in between: what it asked of Redis and the key manager, the protocol steps it took and its result are those of a tick; it is too soon if and only if the read answered with a stamp that is less than a window old; a lock it got is given back, and at most one rotation is recorded |
| RotationGuardLoop.RotationGuards.ReadStamp | cmd/token-engine/main.go:230-239 | Goes on if and only if the read fails, shows no stamp, or shows one that is at least a window old |
| RotationGuardLoop.RotationGuards.TakeLock | cmd/token-engine/main.go:240-244 | Tries the rotation lock once, and goes on exactly if it is got |
| RotationGuardLoop.RotationGuards.RotateLocked | cmd/token-engine/main.go:245-251 | Under the lock: rotate, only after success stamp, and always give the lock back |
| RotationGuardLoop.RotationGuards.WriteStamp | cmd/token-engine/main.go:250-250 | The stamp and the record of the rotation, or neither |
| RotationGuardLoop.RotationGuards.Unlock | cmd/token-engine/main.go:245-251 | The lock taken for this rotation is released, after failure too |
| Reconciliation.CursorReconciler.Run | internal/reconciliation/cursor_reconciler.go:76-89 | One pass: the context is asked before each visit, one visit follows the other and nothing else is done; the pass completes if and only if the context never answered that it is done, has then visited each tenant exactly once, and stamps its end; otherwise it stops at the first such answer, has visited some tenants once, and leaves the stamp alone |
| Reconciliation.CursorReconciler.ProcessTenant | internal/reconciliation/cursor_reconciler.go:91-102 | A visit: one Acquire step on the tenant's lock, and exactly if it is got, under that very token, one cleanup of this tenant, the end of the work and then the release step; no other lock is taken and no other tenant cleaned up |
| Reconciliation.OneCleanupPerTenant | internal/reconciliation/cursor_reconciler.go:91-102 | Across replicas, if cleanups of a tenant end inside the lock TTL, at most one holder of that tenant's reconciliation lock is at work, and one lock serves one tenant |
| Reconciliation.CursorReconciler.RunOnTicks | cmd/token-engine/main.go:257-269 | The ticker loop: its passes form a schedule, every pass that stamped visited each tenant exactly once between its start and its stamp, the loop falls short of n passes if and only if the context answered that it is done, nothing else was done but what that last pass had done by then, and lastSuccessAt is the stamp of the latest pass |
| Reconciliation.StampsClose | cmd/token-engine/main.go:257-269 | If no pass of such a schedule takes longer than an interval, the first stamp comes within two intervals of the start and every other within two of the one before |
| Reconciliation.TicksAreRegular | cmd/token-engine/main.go:257-269 | The next tick of the schedule is a whole number of intervals after the start |
| Reconciliation.AlwaysHealthy | internal/health/health.go:173-185 | Then the check on lastSuccessAt with a threshold of two intervals, or a nanosecond less, fails at a moment from the first stamp to the last if and only if its own context is cancelled |
| Reconciliation.EveryTenantRecent | internal/health/health.go:173-185 | And at each of these moments every tenant was visited at most three intervals ago |
| Reconciliation.TwoIntervalsNeeded | cmd/token-engine/main.go:313-313 | And no smaller threshold would do: for each there is a schedule in which the check fails |
| TokenHandlers.TokenHandler.IssueToken | internal/handler/token.go:63-121 | An OK reply carries the pair just issued for exactly the request's subject, claims and audiences, each token with its own remaining lifetime, and the refresh token is new; an error is the registry's, or that of the library call that was refused after the ones before it succeeded, Internal if the new access token does not validate |
| TokenHandlers.TokenHandler.RefreshToken | internal/handler/token.go:127-191 | An OK reply spent exactly the presented token, and pairs the rotated access token with a new refresh token for its subject and audience; an error is the registry's or that of the first library call that was refused, and says how far the rotation had got |
| TokenHandlers.OnlyRefreshes | internal/handler/token.go:63-191 | Whatever the reply: issuing refreshes nothing, and a refresh presents the library only its own token, once and first |
| TokenHandlers.TokenHandler.CustomClaims | internal/handler/token.go:82-86 | The loop copies the request's claims, all of them and no others |
| TokenHandlers.TokenHandler.Revoke | internal/handler/token.go:194-416 | Gate, lookup, library call, audit record, in that order and with other RPCs at work in between: the steps it takes are the answers of audit store, registry and library, they decide the reply; the library is asked for exactly what the request names, a token by the ID its introspection gave, and the event names tenant, caller, scope and target, a token only by its reference |
| TokenHandlers.TokenHandler.EventFor | internal/handler/token.go:237-246 | The event names tenant, caller, scope and target of the revocation, a token only by its reference |
| RevocationProtocol.AuditBalance | internal/handler/token.go:194-416 | At every moment of every interleaving of revoke RPCs: revocations = events + replies "audit record failed" + RPCs between the two, and events = OK replies |
| RevocationProtocol.BooksRun | internal/handler/token.go:194-416 | Invariant: every RPC that revoked did so once, every RPC that recorded did so once, each event records its own RPC's revocation, and nothing else is in journal or audit log |
| RevocationProtocol.EventFollowsRevocation | internal/handler/token.go:194-416 | Every event follows exactly one revocation, of the same RPC, which the request asked for and the event records |
| RevocationProtocol.ClosedGateDoesNothing | internal/handler/token.go:205-210 | An RPC whose ping fails revokes nothing and records nothing, ever |
| RevocationProtocol.RevokedIffLibraryOk | internal/handler/token.go:225-235 | An RPC has revoked if and only if its library call came back with success |
| RevocationProtocol.RecordedIffAnswerOk | internal/handler/token.go:246-251 | Once gate, lookup and library call have succeeded, the revocation stands, and it has an event if and only if the audit store answers ok |
| RevocationProtocol.AuditFailureDoesNotAbort | internal/handler/token.go:17-21 | The comment's promise is false: after any history, for any request and any revocation it asks for, if gate, lookup and library call succeed and the record fails, the revocation stands without an event |
| TokenHandlers.ExpiresInSeconds | internal/handler/token.go:420-426 | Whole seconds rounded down, zero for the past, and the largest duration in seconds for a time too far off |
| TokenManagers.TokenManager.RefreshAccessTokenWithClaims | internal/interceptor/idempotency.go:265-268 | The contract this service states of the library: success means the presented token was live and is revoked at once |
| TenantRegistry.MultiTenantRegistry.Add | internal/registry/multi_tenant.go:89-173 | Success registers exactly this tenant, active, with a stack of its own, newly made, and counts it; it fails with Unknown if and only if the library, asked once and only for a new tenant with all arguments, did not build the stack; every failure changes nothing |
| TenantRegistry.MultiTenantRegistry.Drain | internal/registry/multi_tenant.go:179-202 | Marks exactly this tenant; errors exactly on the empty and the unknown tenant |
| TenantRegistry.MultiTenantRegistry.Remove | internal/registry/multi_tenant.go:208-242 | Only a drained tenant goes, with its key manager shut down and no other; the four outcomes by their conditions |
| TenantRegistry.MultiTenantRegistry.Get | internal/registry/multi_tenant.go:247-264 | Succeeds exactly when the last thing that happened to the tenant is that it was added, with the tenant's own manager |
| TenantRegistry.MultiTenantRegistry.GetAll | internal/registry/multi_tenant.go:296-306 | Exactly the tenants on which Get succeeds, each with its manager |
| TenantRegistry.MultiTenantRegistry.AllKeyManagers | internal/registry/multi_tenant.go:268-276 | Every registered tenant, draining ones included; no key manager among them was shut down by Remove |
| TenantRegistry.MultiTenantRegistry.AllBackfillers | internal/registry/multi_tenant.go:282-290 | Every registered tenant, draining ones included, with its backfiller |
| TenantRegistry.MultiTenantRegistry.GaugeBalances | internal/registry/multi_tenant.go:168-170 | The active-tenants gauge is the number of entries and that is adds minus removes |
| TenantLifecycle.DrainedUntilReadded | internal/registry/multi_tenant.go:179-242 | In any history, a tenant once drained is active again only after a Remove and then an Add |
| TenantLifecycle.StatusIsLastEvent | internal/registry/multi_tenant.go:89-264 | Active, draining or unknown is decided by the last event about the tenant |
| TenantLifecycle.Population | internal/registry/multi_tenant.go:168-240 | In any history the number of registered tenants is adds minus removes |
| CallerRegistry.ValidateCallers | cmd/token-engine/main.go:181-200 | Accepts exactly the configs of version 1 whose entries have an identity and a tenant each and no two the same identity; otherwise the error of the first bad entry |
| CallerRegistry.NewStaticCallerRegistry | internal/registry/caller.go:64-77 | The table gives each identity the tenants of its last entry, for any config |
| CallerRegistry.PermittedIffLastLists | internal/registry/caller.go:85-98 | For any config: permitted if and only if the identity's last entry lists the tenant |
| CallerRegistry.PermittedIffListed | internal/registry/caller.go:85-98 | For a validated config: permitted if and only if listed |
| CallerRegistry.ListedSufficesIff | internal/registry/caller.go:64-98 | Without the duplicate check, every listed tenant is permitted if and only if no identity's last entry drops a tenant an earlier one lists |
| RequestChain.PassesIffAdmissible | internal/interceptor/caller.go:29-60 | A TokenEngine request gets past authorization and validation if and only if the caller has an identity and is listed for the non-empty tenant, all identifiers are set and no claim key is reserved (section 4.1 of RFC 7519) |
| RequestChain.ValidatesIff | internal/interceptor/validation.go:25-91 | Validation passes if and only if, request by request, tenant and identifiers are set and no claim has one of the seven registered names |
| RequestChain.NotHealth | internal/interceptor/caller.go:31-34 | Exactly the health RPCs skip authorization |
| RequestChain.RefusedFor | internal/interceptor/caller.go:36-56 | A refused request is told why: Internal without identity, PermissionDenied exactly for a tenant not listed, InvalidArgument for an empty tenant and for whatever else is malformed |
| RequestChain.Server.Serve | cmd/token-engine/main.go:279-289 | The chain in main's order: an inadmissible request touches neither store, managers, revocations nor audit and is told why; an admissible keyed one is answered with exactly the pair or error the protocol, or without a client key the handler, ended it with; a revocation takes its four calls |
| RequestChain.Server.Forward | cmd/token-engine/main.go:279-289 | Only requests with a tenant get to the idempotency guard, whose Internal branch is therefore never taken |
| StaticCallerKeys.ParseStaticCallerKeys | internal/config/config.go:206-218 | The loop accepts if and only if every part has its last '=' strictly inside; the error is the first part that has not |
| StaticCallerKeys.GoodMeans | internal/config/config.go:206-218 | A part is accepted if and only if it has an '=' strictly inside with none after it, and is then its key, that '=' and its identity, neither empty |
| StaticCallerKeys.LastPartWins | internal/config/config.go:206-218 | The result has exactly the parts' keys, each with the identity of the last part that has it |
| StaticCallerKeys.RoundTrip | internal/config/config.go:206-218 | Any map of plain pairs, rendered in any order, parses back to itself; keys may contain '=' |
| StaticCallerKeys.PairRoundTripIff | internal/config/config.go:206-218 | The conditions are exact: a pair parses back to itself if and only if it is plain |
| StaticCallerKeys.SplitJoin | internal/config/config.go:208-208 | Splitting at commas undoes joining comma-free parts |
| StaticCallerKeys.JoinSplit | internal/config/config.go:208-208 | And joining undoes splitting |
| Redaction.RedactKeysAndValues | internal/observability/redact.go:46-62 | Returns the redacted elements: the caller's own slice exactly when nothing matches, a new array otherwise; no array of the caller's changes |
| Redaction.RedactedAt | internal/observability/redact.go:40-45 | Slot by slot: the values after the keys token, key, cursor and next_cursor at even indices are replaced, everything else stays, length included |
| Redaction.Idempotent | internal/observability/redact.go:46-62 | Redacting twice is redacting once |
| Redaction.SecretsDoNotShow | internal/observability/redact.go:40-45 | Two field lists that differ only in values of deny-listed keys are redacted to the same list |
| Redaction.SplitLeadingContext | internal/observability/redact.go:32-39 | Takes off exactly a leading context; the rest is a reslice of the same array |

## Left out

- IdempotencyRecord.DecodeEncodeRecord: the decoder reads envelopes with the members in the order the encoder writes them; JSON the service never writes (other member orders, white space, unknown members) is not modelled.
- TokenPairWire.UnmarshalMarshal: bytes with fields other than the four of TokenPair are treated as unreadable, where the library would keep them as unknown fields.
- Json.UnquoteQuote: reading back is stated for valid UTF-8 only; how the library repairs bad bytes and surrogate escapes while decoding is not modelled.
- TokenHandlers.ExpiresInSeconds: is exact, where `Duration.Seconds` goes through a float64 and may round a lifetime of many months up by its last nanosecond; the two expiries of a pair are computed from one reading of the clock.
- TokenHandlers.TokenHandler.Revoke: the tenants the handler looks up are fixed, where the registry may change between RPCs; the time of an event is given at the start of the RPC.
- RevocationProtocol.AuditFailureDoesNotAbort: is about the `audit.Store` interface; a record that fails is taken to have written nothing, where a store behind a network might have. `SlogAuditStore`, the one main wires in, never fails.
- KeyRotation.AtMostOnePerReplica: a rotation whose stamp write was lost is not counted once its guard is done, since nothing remembers it.
- IdempotencyLimits.RecordStandsIff: a write that reaches Redis after its call has failed is not modelled.
- RotationGuardLoop.RotationGuards.OnTick: the loop around a tick and its cancellation are not modelled, nor is a stamp that does not parse, which the code treats like none.
- Reconciliation.CursorReconciler.RunOnTicks: a pass starts at the very moment its tick allows, without scheduling delay; what the health check sees before the first completed pass, the time of construction, is not part of the freshness theorem. The loop's own check of the context, which may end it without another pass, is folded into the pass that finds the context done.
- RequestChain.Server.Serve: starts after authentication, with the caller's identity given; the registry that permits every caller is not modelled.
- IdempotencyInterceptor.Interceptor.Handle: a request of the wrong type for its method, which gRPC rules out, is not modelled; a zero TTL, which Redis takes for no expiry, is excluded by requiring positive TTLs.
- TtlLock.RedisLock.Acquire: UUIDs are modelled as tokens nobody drew before.
- TenantRegistry.MultiTenantRegistry.Add: which part of a tenant's stack failed to build, and what a failed start leaves behind outside the registry, is not modelled.
- The jwtauth library is not part of this repository. `TokenManagers` keeps only the contract the service states of it: a refresh that succeeds revokes the presented token at once and no other, a refresh token that is issued is new, and a revocation that succeeds is the one asked for. Signing, key storage and refresh token storage are open.
- gRPC, HTTP, TLS and Redis connections, start-up retries and shutdown order.
- Logging, tracing, metric registration, correlation IDs, the mapping of library errors to codes, the readiness and JWKS handlers.
- The rest of configuration loading (defaults, durations, TLS file checks), the no-op implementations used when a component is switched off, `internal/tokenref` (a truncated hash, here a parameter), the client library and the examples.
