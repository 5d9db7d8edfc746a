# Verified model of the FileEngine HTTP bridge

The bridge is described as a thin proxy, yet it holds a credential system of its own: signed
tokens that no server remembers, a shared revocation list behind per-instance caches, single-use
codes, sessions bound to generated keys, and gates that trust an answer for a bounded time. This
project models that system, the content streaming path and the string and time mechanisms they
rest on, and proves what they promise for every input and every run.

Run `dafny verify dfyconfig.toml` to check everything.

## How the model is laid out

| file | what it models |
|---|---|
| `TtlCache.dfy` | a verdict cache with expiring entries under free interleaving, for any key, verdict and lifetime; the freshness theorem is proved here once |
| `TokenDenylist.dfy` | the denylist of one instance, as the class the source has, with the shared store as a ghost field |
| `RevocationProtocol.dfy` | sign-out across any number of instances, as a step system on top of `TtlCache` |
| `Authority.dfy` | a value per tenant that someone else owns, read through that cache: honest answers, freshness, and how soon a change bites |
| `TenantGate.dfy` | the tenant-state policy, the gate and the second-factor requirement, both a class and an instance of `Authority` |
| `ReplayGuard.dfy` | the single-use guard, as a class and over sequences of calls |
| `Credentials.dfy` | the claims of the five credentials and the four doors that take one |
| `Lifecycle.dfy` | the request handlers as steps that append to a log |
| `Requests.dfy` | exactly when each request mints or serves, and exactly which credential |
| `Provenance.dfy` | the request behind each credential of a run, and what it had been shown |
| `LifecycleTheorems.dfy`, `LifecycleGuards.dfy`, `LifecycleTenants.dfy` | what every run of those steps keeps |
| `SingleUse.dfy` | exactly when a hand-off code or an assertion works, over whole runs |
| `SignOut.dfy` | what signing out ends: the life cycle and the revocation protocol together |
| `Jwt.dfy` | signing and verifying, over arbitrary hash and JSON functions |
| `ContentStream.dfy` | range planning, the skip and remaining counters, and the frame loop |
| `UrlCodec.dfy`, `Base64Url.dfy`, `LdapFilter.dfy` | coding and escaping loops, each against an independent reader |
| `ClientIp.dfy`, `LoginLabel.dfy`, `Failover.dfy` | forwarded addresses, the reserved sign-in label, master/replica failover |
| `ByteText.dfy`, `Search.dfy` | byte strings; finding an element |

Code the source writes as loops or as objects with mutable fields is a method or a class here,
and each is tied by its contract to a specification function; the theorems are about those
functions. Where a class is also modelled as a protocol, one call of it is proved to be the
protocol's steps taken without interference (`CheckIsSteps`, `RevokeIsSteps`, `GateIsSteps`,
`RequirementIsSteps`). Protocols are deterministic step functions (`Next`), and a run is any sequence of
enabled steps (`Exec`). Histories are logs that no step reads, so they change no behaviour.

Assumptions. Clocks are integer seconds (reals in `Failover`), nondecreasing and shared by the
instances and the store. Signatures are ideal in the life cycle: a presented credential is named
by the log position at which it was minted, and `Jwt` proves what the token format contributes to
that. A request of the life cycle is one step; the answers of the directory, the identity service,
the denylist, the tenant gate and the audit sink during it are parameters, so every answer they
could give is covered.

## What the proofs found

- A check that already holds an Allowed answer when a sign-out completes can store it after the
  sign-out seeded the cache. The comment at `src/token_denylist.cpp:98-99` promises that the serving
  instance stops at once; `SeedStopsInstance` gives the exact condition, and `SeedRaceIsReachable`
  reaches the exception. The latency bound across instances is unaffected.
- With `cache_ttl` 0, a check in the very second of a sign-out can still be Allowed, because its lookup
  came first (`SameSecondSlips`); `RevocationLatency` asks for "later in order" there. The exact verdict,
  for any cache life, is `AllowedIffNoEarlierWrite`.
- The replay guard is safe when clock readings are nondecreasing in lock order, but `accept` takes
  a clock value read before the lock. `ReacceptedIff` is exact; `EarlierClockReaccepts` is an input
  on which a code is accepted twice before its expiry. In that order a credential is accepted the
  first time and from its expiry on, and at no other time (`AcceptedIff`).
- The guard lives in one process: an unexpired hand-off code becomes a session exactly on the
  processes it was not put to before (`RedeemsIffFirst`), so two processes redeem one code
  (`TwoProcessesRedeemTwice`, `CodeRedeemedTwice`). A redeem refused for want of an audit trail spends
  the code as well.
- An assertion is accepted for 60 s after its expiry, when its guard record no longer blocks: one that
  was already put to a process mints there again exactly from its expiry to 60 s after it
  (`ReplayedIffInLeeway`), and `AssertionExchangedTwice` is such a run for every assertion.
- `src/http_server.cpp:2250` says a redeemed session is for the same tenant. `mintJwt` falls back to
  the user's first tenant when the user holds no role in the code's tenant: `RedeemedTenantIff` is
  exact over whole runs, and `RedeemChangesTenant` is a run with a session for another tenant.
- `resolveTenant` returns a reserved name exactly when the sign-in label is itself configured as
  "default" and the fallback is taken (`ResolvedReservedIff`); the setter accepts that label, and then
  every bare host is such an input (`DefaultLabelIsResolved`).

## Model

| member | source | states |
|---|---|---|
| `TtlCache.NextKeepsInv` | src/token_denylist.cpp:67-81 | every step of every interleaving (clock, probe, lookup, put, seed, eviction of any entries) keeps: each cached verdict stems from an answer or seed for that key and expires within one life of it |
| `TtlCache.ExecKeepsInv` | src/token_denylist.cpp:47-105 | that invariant holds after any run, for any lifetime function |
| `TtlCache.DoneIsFresh` | src/token_denylist.cpp:67-81 | a finished call's verdict was given for its key no later than its finish and later than its start less one life; a verdict that may not be cached is the call's own answer |
| `TtlCache.VerdictFollowsEvent` | include/token_denylist.h:70-76 | a call that begins one life after an event returns a verdict given after that event |
| `TokenDenylist.Denylist.PruneLocked` | src/token_denylist.cpp:47-57 | the erase loop leaves exactly the live entries, or nothing if even those exceed the bound |
| `TokenDenylist.PruneKeepsHits` | src/token_denylist.cpp:47-57 | pruning keeps exactly the entries a check could still hit, or none if even those exceed the bound |
| `TokenDenylist.Denylist.CachePutLocked` | src/token_denylist.cpp:59-65 | Unknown is never stored; otherwise room is made and the verdict trusted until now plus the cache life |
| `TokenDenylist.Denylist.Check` | src/token_denylist.cpp:67-81 | hit, miss and exempt cases; used sequentially, Allowed is never answered while the store holds the token, and Unknown only when the lookup failed |
| `TokenDenylist.Denylist.Permits` | src/token_denylist.cpp:83-90 | fail-closed: with fail_open false, permitted means not in the store |
| `TokenDenylist.PolicyIff` | src/token_denylist.cpp:83-90 | a fail-closed bridge permits exactly on Allowed, a fail-open one exactly on anything but Revoked |
| `TokenDenylist.Denylist.Revoke` | src/token_denylist.cpp:92-105 | the return value in all five cases, the store entry's expiry, the seed, and that no cached Allowed survives it |
| `TokenDenylist.Denylist.ClearCache` | src/token_denylist.cpp:112-115 | an empty cache, still consistent with the store |
| `TokenDenylist.SignOutIsImmediate` | src/token_denylist.cpp:92-105 | in sequential runs, whatever time passes inside each call, a successful revoke is refused on the serving instance from the very next check until the token's expiry, through any other checks, revokes and clears |
| `TokenDenylist.InsertionBound` | src/token_denylist.cpp:59-65 | after an insertion by a check the cache holds at most max_cache_entries + 1 entries |
| `RevocationProtocol.NextKeepsInv` | src/token_denylist.cpp:162-177 | every step keeps: each sign-out's store entry outlives its token, so the store says Allowed again only after the token's expiry |
| `RevocationProtocol.ReachableInv` | src/token_denylist.cpp:67-105 | the invariant in every reachable state of any number of instances |
| `RevocationProtocol.VerdictIsRecent` | src/token_denylist.cpp:67-81 | the cache refines the direct lookup: each verdict was given by the store or a seed later than the check's start less cache_ttl; Unknown is the check's own failed lookup |
| `RevocationProtocol.RevocationLatency` | include/token_denylist.h:70-76 | once the write is in the store, every check of that token on any instance that starts cache_ttl later and ends before its expiry is not Allowed, and a fail-closed bridge refuses |
| `RevocationProtocol.AllowedIffNoEarlierWrite` | src/token_denylist.cpp:67-105 | in every run a check that got a verdict and ended before the token's expiry is Allowed if and only if the answer it rests on precedes every sign-out of the token |
| `RevocationProtocol.SameSecondSlips` | src/token_denylist.cpp:69-79 | with caching off, a run whose check starts in the second of the write and is Allowed |
| `RevocationProtocol.SeedStopsInstance` | src/token_denylist.cpp:96-103 | after the seed no later check on the serving instance slips through in any continuation, if and only if no check there holds a believable Allowed answer |
| `RevocationProtocol.StaleAnswerSlips` | src/token_denylist.cpp:75-79 | from any state with such an answer, three steps admit a signed-out token |
| `RevocationProtocol.SeedRaceIsReachable` | src/token_denylist.cpp:75-103 | such a state is reachable from the start |
| `RevocationProtocol.PutBound` | src/token_denylist.cpp:59-65 | a put that stores leaves at most max_cache_entries + 1 entries, whatever was interleaved since its probe |
| `RevocationProtocol.CacheBound` | src/token_denylist.cpp:47-105 | in every run, with any number of misses in flight, each instance's cache holds at most that plus the sign-outs seeded there since its last stored answer |
| `RevocationProtocol.CheckIsSteps` | src/token_denylist.cpp:67-81 | a check's steps taken without interference give exactly the class's verdict and leave exactly its cache |
| `RevocationProtocol.RevokeIsSteps` | src/token_denylist.cpp:92-105 | a sign-out's steps taken without interference leave exactly the class's store entry and seed |
| `RevocationProtocol.FailedRevokeIsSteps` | src/token_denylist.cpp:96-104 | likewise for a sign-out whose store write fails: store and caches are untouched |
| `TenantGate.DecideAdmitsOnlyLive` | include/tenant_state_policy.h:67-126 | admitted exactly on a found row that says live; a refusal always has a code and a reason |
| `TenantGate.ReasonIff` | include/tenant_state_policy.h:102-117 | which state is refused with which reason |
| `TenantGate.CodeIff` | include/tenant_state_policy.h:121-126 | a known state that does not admit has the code "tenant_" and its name, anything else the unknown code |
| `TenantGate.RefusalsAreDistinct` | include/tenant_state_policy.h:121-126 | known states have distinct codes, and none is the code for an undeterminable state |
| `TenantGate.Gate.TenantAdmits` | src/http_server.cpp:1928-1987 | after any calls: a tenant is admitted only if some lookup later than now - 60 found it live, refused (unless empty) only if one later than now - 10 did not; the empty tenant is refused without a lookup, and a lookup is made exactly on a miss |
| `Authority.NextKeepsInv` | src/http_server.cpp:1939-1986 | every step of any interleaving keeps: each logged answer is a failure or the value of that instant |
| `Authority.Freshness` | src/http_server.cpp:1928-1987 | every finished call rests on one lookup of its tenant, less than one life of its outcome old at its start, that failed or found the value of that instant |
| `Authority.ChangeBites` | src/http_server.cpp:1980-1985 | a lasting change is what every call that starts one life later found, unless its lookup failed |
| `TenantGate.GateIsSteps` | src/http_server.cpp:1928-1987 | a request's steps taken without interference tell it what the class does and leave its cache |
| `TenantGate.GateFreshness` | src/http_server.cpp:1928-1987 | under any interleaving an admission rests on a live row seen later than start - 60, a refusal on a failed, missing or non-live lookup later than start - 10 |
| `TenantGate.SuspensionBites` | src/http_server.cpp:1980-1985 | a state that leaves live and stays away refuses every call that starts 60 s later |
| `TenantGate.ReturnBites` | src/http_server.cpp:1980-1985 | a state back to live admits every call that starts 10 s later, if lookups succeed |
| `TenantGate.RequirementCache.TenantRequires2fa` | src/http_server.cpp:2511-2531 | after any calls: a second factor is demanded, or not, only on a lookup later than now - 30 that found the mandate so, a failed one counting as a demand |
| `TenantGate.RequirementIsSteps` | src/http_server.cpp:2511-2531 | a request's steps taken without interference decide what the class does and leave its cache |
| `TenantGate.RequirementFreshness` | src/http_server.cpp:2511-2531 | under any interleaving the demand rests on a lookup less than 30 s before the request's clock reading, which failed (and then demands) or found the tenant's mandate of that instant |
| `TenantGate.MandateBites` | src/http_server.cpp:2521-2531 | a mandate switched on and kept is enforced on every call that starts 30 s later, even if lookups fail |
| `TenantGate.MandateLifts` | src/http_server.cpp:2521-2531 | a mandate lifted for good is demanded 30 s later exactly on the calls whose lookup failed |
| `ReplayGuard.Guard.PurgeLocked` | include/replay_guard.h:39-44 | the erase loop leaves exactly the unexpired records |
| `ReplayGuard.Guard.Accept` | include/replay_guard.h:21-29 | accepted unless a live record exists; the new records in all three cases |
| `ReplayGuard.RecordFate` | include/replay_guard.h:21-44 | a record is gone exactly when some later call read a clock at or past its expiry |
| `ReplayGuard.ReacceptedIff` | include/replay_guard.h:21-44 | exactly when a jti is accepted a second time, for any clock readings |
| `ReplayGuard.AtMostOnce` | include/replay_guard.h:17-29 | with clocks nondecreasing in lock order, never twice before its expiry |
| `ReplayGuard.EarlierClockReaccepts` | include/replay_guard.h:21-29 | without that order, an input accepted twice |
| `ReplayGuard.ReacceptedOnceExpired` | include/replay_guard.h:21-44 | with clocks in lock order the next acceptance comes if and only if the last one has expired |
| `ReplayGuard.AcceptedIff` | include/replay_guard.h:17-44 | with clocks in lock order a credential is accepted if and only if it is its first presentation or its expiry has come |
| `Credentials.FirstTenant` | src/http_server.cpp:2050-2052 | the fallback tenant is the least key of the role map, which exists |
| `Credentials.StampIff` | src/http_server.cpp:2050-2052 | the stamped tenant is the requested one if and only if the roles contain it or are empty; otherwise it is the first of the roles' tenants |
| `Credentials.LexLeIff` | src/http_server.cpp:2046-2052 | "first" is the order of an ordered map: a prefix first, else the smaller character where two names part |
| `Credentials.KeySessionIsConfined` | include/service_key_policy.h:50-57 | a key session is stamped with its key's tenant, holds roles in no other, and carries key id and generation |
| `Credentials.ClampPlaybackTtl` | include/ticket_claims.h:38-43 | a lifetime between 1 and 1800, the configured one when it is in that range |
| `Credentials.SecondFactorOfConcat` | include/service_key_policy.h:108-114 | joining method lists neither gains nor loses a second factor |
| `Credentials.KindsNeverCross` | src/http_server.cpp:1785-1815 | whatever the request, claims of a kind open that kind's door or none |
| `Credentials.TicketRoundTrip` | include/ticket_claims.h:45-78 | a ticket opens exactly its own uid, while its session is permitted and its tenant admitted, and gives back user, tenant and roles |
| `Credentials.SessionReadsBack` | src/http_server.cpp:2028-2088 | a session gives back the user, methods, jti and key it was minted for, and in each tenant exactly the roles held there (a key session in its one tenant) |
| `Credentials.ServiceReadsBack` | include/service_claims.h:18-43 | a service token gives back its principal with the configured roles in its one tenant |
| `Credentials.HandoffReadsBack` | include/sso_handoff.h:18-36 | a hand-off code opens the redeem door with its own user, tenant and methods |
| `Credentials.PendingReadsBack` | src/http_server.cpp:2363-2379 | a challenge opens the second-factor door from the address it was issued to and no other |
| `Requests.LoginMintsIff` | src/http_server.cpp:2693-2785 | a password login ends in a session if and only if it bound, the gate admits, the user has a tenant, the audit event was accepted and no second factor is required; in a challenge if and only if one is; an unavailable identity service gives neither; both are for the requested tenant if the user belongs to it, else the first of theirs |
| `Requests.LoginRefusalRecorded` | src/http_server.cpp:2700-2742 | a refused tenant is recorded as a denial and bad credentials as a failure, each if and only if so |
| `Requests.KeyLoginMintsIff` | src/http_server.cpp:2871-2922 | a key login mints if and only if the gate admits, the secret was given and is the key's, the identity service was not at fault, the key is live for exactly that tenant with a user and a generation, the user is a member there, and the audit event was accepted; and exactly which session |
| `Requests.KeyRefusalRecorded` | include/service_key_policy.h:66-78 | only a rejected key, a missing secret or a lost membership is recorded as a failure; a fault of the identity service is not |
| `Requests.FactorMintsIff` | src/http_server.cpp:2970-3052 | completing a second factor mints if and only if the token is a live challenge with a subject, presented from its own address, the identity service accepted the code, and the audit event was accepted; and exactly which session |
| `Requests.OAuthMintsIff` | src/http_server.cpp:1700-1716 | a federated login mints if and only if the directory knows the user and the audit event was accepted |
| `Requests.ExchangeCredential` | src/http_server.cpp:2628-2680 | an exchange that mints gives a service token with the configured roles, or a session of the asserted user in the asserted tenant if they belong to it, else the first of theirs, bound to the caller's address |
| `Requests.KeyRefreshMintsIff` | src/http_server.cpp:2927-2960 | a key session is renewed if and only if the key is live for its tenant, of the same user and generation, the user still a member, no fault, and the audit event was accepted; and exactly which session |
| `Requests.RefreshMintsIff` | src/http_server.cpp:3061-3097 | an ordinary session is renewed if and only if the request authenticates, the user still has a tenant, and the audit event was accepted; it stays in its tenant while the user does, with its methods |
| `Requests.RefreshOfKeySession` | src/http_server.cpp:3063 | a key session's refresh is the key's refresh and nothing else |
| `Requests.HandoffMintsIff` | src/http_server.cpp:2227-2246 | a code is minted if and only if the request authenticates and is no key session's; it carries user, tenant and methods |
| `Requests.RedeemCredential` | src/http_server.cpp:2264-2304 | a redeem that mints had a live hand-off code, and gives a session of its user with its methods, bound to the redeeming address |
| `Requests.TicketMintsIff` | src/http_server.cpp:2108-2150 | a ticket is minted if and only if the request authenticates, for the uid asked; a playback ticket lives at most 1800 s, a download ticket as configured |
| `Requests.ContentServedIff` | src/http_server.cpp:2153-2210 | content is served if and only if the ticket is live, of a ticket type, for that uid, its session (if named) permitted and its tenant admitted; and then as its identity |
| `Requests.BearerIff` | src/http_server.cpp:1748-1831 | a token gets a request through if and only if it was minted and is unexpired, the denylist permits it, the gate admits, it is neither pending nor a ticket, the active tenant (X-Tenant, else its own) is among its roles, and it is second-factored where demanded; and then as exactly which identity |
| `Requests.BearerIffIssued` | src/http_server.cpp:1748-1831 | in every run those tokens are exactly the issued sessions and service tokens under those conditions |
| `Requests.BasicIff` | src/http_server.cpp:1842-1909 | HTTP Basic gets a request through if and only if the directory bound the user, the gate admits, and the tenant is one of theirs |
| `Requests.AccessServedIff` | src/http_server.cpp:469-490 | a resource request is served if and only if it authenticates, and as that identity |
| `LifecycleTheorems.RunKeepsLog` | src/http_server.cpp:1748-3097 | in every run each log entry is justified by what precedes it |
| `LifecycleTheorems.LineageKeepsUser` | src/http_server.cpp:2227-2304 | through refresh, hand-off, redeem and ticket every credential names the user its lineage began with |
| `LifecycleTheorems.KeyConfinement` | include/service_key_policy.h:46-96 | a session is key-bound if and only if its lineage began with a key, and then user, tenant, key id and generation are the first session's, roles are in that tenant only, and the lineage holds no hand-off code |
| `LifecycleTheorems.KeyServesOneTenant` | src/http_server.cpp:1804-1815 | whatever X-Tenant says, what a key's session or ticket is served for is the key's user in the key's tenant |
| `LifecycleTheorems.SecondFactorProvenance` | include/service_key_policy.h:102-114 | in every run a session counts as second-factored if and only if its lineage began with a verified factor, an enrolment, a federated login, a key, or an assertion that carried one |
| `Provenance.EveryCredentialWasEarned` | src/http_server.cpp:2871-3052 | in every run each credential was added by one request that had shown what its origin says: the code accepted, the secret given, the assertion verified, the user bound |
| `Provenance.SecondFactorWasPresented` | src/http_server.cpp:3017-3047 | in every run a second-factored session goes back to a request in which a second factor was accepted, or a key's secret, a federated login or a verified assertion carrying one was shown, for the same user |
| `Provenance.ChallengeBoundToAddress` | src/http_server.cpp:2980-2997 | in every run a challenge is completed only from the address of the login that got it, and for its user |
| `Provenance.PlaybackTicketsAreShort` | include/ticket_claims.h:31-43 | no playback ticket of any run lives longer than 1800 s |
| `LifecycleTheorems.DemandingTenantNeedsSecondFactor` | src/http_server.cpp:1817-1829 | where two-factor is on, a token is served in a demanding tenant only on such a lineage |
| `LifecycleTheorems.OneDoorEach` | src/http_server.cpp:1785-1815 | over every run each minted credential opens at most one of the four doors, its own kind's |
| `LifecycleTheorems.TicketsReadBack` | src/http_server.cpp:2108-2210 | over every run a ticket opens only the uid asked for, as the user, tenant and roles that asked |
| `LifecycleTheorems.WriteAhead` | src/http_server.cpp:2913-2955 | with auditing on, every issued session or service token sits right after a durably accepted success event for its user |
| `LifecycleTheorems.AuditCoversTokens` | src/http_server.cpp:2283-2299 | so at every moment of every run no user holds more issued tokens than recorded successes |
| `LifecycleGuards.RunKeepsUses` | src/http_server.cpp:2264-2277 | in every run unexpired uses stay on record and no use repeats before its expiry |
| `LifecycleGuards.CodeRedeemedOnce` | src/http_server.cpp:2264-2304 | in every run one process turns a hand-off code into a session at most once, ever |
| `LifecycleGuards.AssertionUsedOnce` | src/http_server.cpp:2620-2626 | an assertion is exchanged on one process at most once strictly before its expiry |
| `SingleUse.GuardPassesIff` | include/replay_guard.h:21-44 | in every run each process's guard passes a credential if and only if that process has not seen it, or its expiry has come |
| `SingleUse.RedeemMintsIff` | src/http_server.cpp:2264-2304 | in any state an unexpired code with a subject and an accepted audit event mints if and only if the guard passes it |
| `SingleUse.RedeemsIffFirst` | src/http_server.cpp:2264-2304 | in every run such a redeem mints if and only if the code was never put to that process before |
| `SingleUse.TwoProcessesRedeemTwice` | src/http_server.cpp:2275-2277 | from any state, two processes whose guards do not know a code both redeem it |
| `SingleUse.CodeRedeemedTwice` | src/http_server.cpp:2275-2277 | a run from the start that does so, under any configuration |
| `SingleUse.RedeemChangesTenant` | src/http_server.cpp:2248-2304 | a run whose redeemed session is for another tenant than its code |
| `SingleUse.ExchangeMintsIff` | src/http_server.cpp:2610-2680 | in any state an exchange mints if and only if the assertion stands, the guard passes it and nothing else is missing |
| `SingleUse.ExchangesIff` | src/http_server.cpp:2610-2680 | in every run, for a jti of one assertion, the guard's part of that is: new to this process, or expired |
| `SingleUse.ReplayedIffInLeeway` | src/assertion_verify.cpp:207-211 | an assertion already put to a process mints there again if and only if it is between its expiry and 60 s later |
| `SingleUse.AssertionExchangedTwice` | src/assertion_verify.cpp:207-211 | for every assertion that stands, a run with two sessions of it on one process |
| `SingleUse.SomeAssertionStands` | src/assertion_verify.cpp:202-215 | such an assertion and request exist under every configuration |
| `SignOut.TicketNamesSession` | src/http_server.cpp:2105-2116 | in every run a ticket minted with a token names that token's jti |
| `SignOut.TicketsEndWithSession` | src/http_server.cpp:2179-2186 | on a fail-closed bridge, from the sign-out's store write plus cache_ttl until the session's expiry, no ticket of the session opens any uid and the session opens no bearer door |
| `SignOut.SignedOutRequestsAddNothing` | src/http_server.cpp:1760-1784 | in that time an access, refresh, hand-off or ticket request that presents the session, and a content request with one of its tickets, serves nothing and mints nothing |
| `LifecycleGuards.RunKeepsKeys` | include/service_key_policy.h:80-96 | in every run no session of a retired generation was minted after it was retired |
| `Provenance.RetiringIsRecorded` | include/service_key_policy.h:80-84 | rotating or revoking a key retires the generation it had, no later than now |
| `LifecycleGuards.RetiredKeyDies` | include/service_key_policy.h:80-96 | after a rotation or revocation at r no session of the old chain, however often refreshed, verifies at or after r + token_ttl |
| `Provenance.RotationEndsChain` | include/service_key_policy.h:80-96 | one token life after the request that rotated or revoked a key, wherever it stands in a run, no session of the generation it had then verifies |
| `LifecycleTenants.RunStamped` | src/http_server.cpp:2035-2052 | in every run each session or service token is stamped with a tenant it holds roles in, if it holds any; one that follows a code or a challenge takes that tenant exactly as far as its roles allow; a hand-off code's tenant is one its parent held roles in |
| `LifecycleTenants.SessionOpensWhereStamped` | src/http_server.cpp:2039-2052 | so presented without X-Tenant it passes the membership check, which the fallback exists for |
| `LifecycleTenants.RedeemedTenantIff` | src/http_server.cpp:2248-2304 | a redeemed session is for its code's tenant if and only if its roles include that tenant or are empty |
| `Jwt.ConstTimeEq` | include/jwt.h:70-76 | the accumulating loop answers exactly whether the texts are equal |
| `Jwt.SplitIff` | include/jwt.h:92-100 | a text splits into three parts if and only if it is three dot-free parts joined |
| `Jwt.SignedVerifies` | include/jwt.h:79-133 | a signed token verifies to its own claims before its expiry and is Expired from then on |
| `Jwt.VerifiesIff` | include/jwt.h:90-133 | exactly which texts verify: two dot-free parts and the hash of those two, a header naming the algorithm, a readable payload, not expired |
| `Jwt.OneSignatureEach` | include/jwt.h:102-106 | of all texts that share their first two parts at most one verifies |
| `ContentStream.Response.OnMeta` | src/http_server.cpp:829-862 | the header is the planned one, with the counters set from it; 416 stops |
| `ContentStream.Response.OnChunk` | src/http_server.cpp:864-879 | the body stays the clip of what has been streamed so far; stopping means the window is full |
| `ContentStream.Response.StreamFileDownload` | src/grpc_client_wrapper.cpp:334-357 | whatever the chunking and wherever an error frame comes, the body is the clip of the payload and the header the plan of the first frame |
| `ContentStream.Response.GetContent` | src/http_server.cpp:809-894 | the four ends of a request: refused, empty file, answered, cut short |
| `ContentStream.DeliversWhatWasAsked` | src/http_server.cpp:809-894 | end to end, for every file, range and sequence of frames: 416 without bytes exactly when the range starts past the end; 206 with headers that name exactly the window and a body that is a prefix of it, complete exactly when the stream reached that far; 200 with the file otherwise |
| `ContentStream.ChunkingIsInvisible` | src/http_server.cpp:849-879 | two complete streams of one file, one windowed by the core and one from byte zero, however cut, give the same answer |
| `ContentStream.ExactWindow` | include/range_response.h:36-42 | a satisfiable range: Content-Length and Content-Range name exactly the window, the bytes sent are a prefix of it and all of it exactly when the stream reached that far, whether the core windowed or not |
| `ContentStream.WholeFile` | include/range_response.h:24-30 | without a range the whole file is announced and sent |
| `ContentStream.UnsatisfiableIff` | include/range_response.h:31-35 | 416 exactly on a range that starts at or past a known end |
| `ContentStream.ClipStep` | src/http_server.cpp:864-879 | dropping and keeping chunk by chunk equals clipping the whole |
| `UrlCodec.UrlEncode` | src/utils.cpp:83-101 | the loop computes the encoding |
| `UrlCodec.UrlDecode` | src/utils.cpp:66-81 | the loop computes the decoding, lenient hex pairs included |
| `UrlCodec.DecodeReads` | src/utils.cpp:66-81 | an escape in either case decodes to its byte, a plus sign to a space, any other character to itself |
| `UrlCodec.RoundTrip` | src/utils.cpp:66-101 | decoding undoes encoding for every byte string |
| `UrlCodec.EncodeIsCanonical` | src/utils.cpp:83-101 | the output holds only unreserved characters and upper-case escapes of bytes that need one |
| `UrlCodec.CanonicalRoundTrip` | src/utils.cpp:66-101 | encoding undoes decoding if and only if the text is canonical |
| `Base64Url.Base64UrlEncode` | src/http_server.cpp:107-124 | the loop computes the encoding |
| `Base64Url.AlphabetIs` | src/http_server.cpp:107-108 | the table: A to Z, a to z, 0 to 9, minus, underscore |
| `Base64Url.RoundTrip` | src/http_server.cpp:107-124 | the decoder of section 5 of RFC 4648 restores every input |
| `Base64Url.EncodedLength` | src/http_server.cpp:107-124 | ceil(4n/3) characters, all from the alphabet, none of them padding |
| `Base64Url.VerifierLength` | src/http_server.cpp:126-132 | 32 bytes make 43 characters |
| `LdapFilter.EscapeLdapFilterValue` | src/ldap_authenticator.cpp:62-76 | the loop computes the escaping |
| `LdapFilter.EscapedReads` | src/ldap_authenticator.cpp:62-76 | the grammar's unescape undoes the escape, whatever follows it |
| `LdapFilter.LoginFilterText` | src/ldap_authenticator.cpp:121-122 | the filter text is the source's, letter by letter, around the escaped name |
| `LdapFilter.TextReads` | src/ldap_authenticator.cpp:60-76 | every filter written with escaped values parses back as itself and leaves what follows alone |
| `LdapFilter.LoginFilterMeans` | src/ldap_authenticator.cpp:121-122 | for every login name the filter parses as Or(uid = name, mail = name) with the original bytes |
| `LdapFilter.UserFilterMeans` | src/ldap_authenticator.cpp:301-303 | the one-attribute filter parses as that equality with the original bytes |
| `LdapFilter.RoleSearchFilterMeans` | src/ldap_authenticator.cpp:550-553 | for every prefix the filter parses as an And with one open-ended prefix match and no other wildcard |
| `LdapFilter.EscapeIsInjective` | src/ldap_authenticator.cpp:62-76 | no two names escape alike |
| `ClientIp.ResolveClientIp` | include/client_ip.h:73-106 | the two loops compute the specified address |
| `ClientIp.IsTrustedProxy` | include/client_ip.h:61-66 | true exactly when some trusted entry matches |
| `ClientIp.TrimPadded` | include/client_ip.h:75-80 | trimming takes off exactly the blanks at both ends |
| `ClientIp.PiecesSplit` | include/client_ip.h:96-99 | a comma cuts a header into two independently read halves |
| `ClientIp.Resolved` | include/client_ip.h:90-105 | with proxies configured the answer is the peer or a hop no trusted entry matches, and an untrusted peer's header has no effect |
| `ClientIp.PrependIsInertIff` | include/client_ip.h:94-105 | nothing a client puts in front changes the answer, if and only if the peer is no proxy, an untrusted hop is present, or no text could be one |
| `ClientIp.ChainRevealsClient` | include/client_ip.h:94-105 | behind any chain of trusted proxies that append their sender, whatever header the client forged, the answer is the client |
| `ClientIp.DevelopmentTakesFirst` | include/client_ip.h:82-89 | without trusted proxies the first hop is taken and nothing after its comma matters |
| `LoginLabel.Setting.SetLoginLabel` | src/utils.cpp:134-186 | accepted, refused with its reason, or reset, and the label stays sound |
| `LoginLabel.Judge` | src/utils.cpp:134-186 | accepted exactly on the empty text or a bare, not all-digit label of at most 63 characters |
| `LoginLabel.RefusedIff` | src/utils.cpp:154-183 | which text is refused for which reason, the first that applies |
| `LoginLabel.LabelStaysSound` | src/utils.cpp:134-186 | after any sequence of calls the label is non-empty, at most 63 long, lower-case alphanumeric and not all digits |
| `LoginLabel.LastAcceptedWins` | src/utils.cpp:134-186 | the label is the last accepted call's, in lower case |
| `LoginLabel.ExtractTenantIff` | src/utils.cpp:198-245 | the tenant is what precedes the first dot, hyphen or colon, exactly when that can name a tenant and a domain follows |
| `LoginLabel.SignInHostHasNoTenant` | src/utils.cpp:198-257 | after any calls, every host that opens with the label, in any case and with any suffix, domain or port, names no tenant |
| `LoginLabel.ResolvedTenantIs` | src/utils.cpp:247-257 | the resolved tenant is the header if it is there and not reserved; else the leading segment of a host with a domain that can name a tenant; else "default" |
| `LoginLabel.ReservedIff` | src/utils.cpp:190-196 | reserved names are the label and "www", letters in any case |
| `LoginLabel.ResolvedReservedIff` | src/utils.cpp:190-257 | the resolved tenant is reserved if and only if the label is "default" and the fallback is taken |
| `LoginLabel.DefaultLabelIsResolved` | src/utils.cpp:134-257 | the setter accepts "default", and then every host without a dot resolves to that reserved name |
| `LoginLabel.HyphenatedLabelNamesTenant` | src/utils.cpp:155-168 | a hyphenated label is refused, and were it set its own host would name a tenant |
| `Failover.Authenticator.ConnectToLdap` | src/ldap_authenticator.cpp:245-263 | the connection, the breaker and the master attempts of one call, with and without a replica |
| `Failover.RunKeepsInv` | src/ldap_authenticator.cpp:245-263 | in every run attempts are spaced and the breaker is closed exactly when every failure has cooled |
| `Failover.NoAttemptInsideCooldown` | include/circuit_breaker.h:35-46 | no master attempt begins inside the cooldown of an earlier failure |
| `Failover.ProbesIffCooled` | include/circuit_breaker.h:35-37 | a call tries the master if and only if every failure has cooled, so the first call after the window probes |
| `Failover.ReachedIff` | src/ldap_authenticator.cpp:252-262 | with a replica, the master is used if and only if it is up and every failure has cooled; the replica if and only if it is up and the master is not used |
| `Failover.UnreachableIff` | src/ldap_authenticator.cpp:252-262 | with a replica, no connection exactly when that call's replica attempt failed and the master was down or skipped |
| `Failover.ProbeRate` | include/circuit_breaker.h:35-46 | any interval of length L meets at most floor(L / c) + 1 failed master attempts |
| `Failover.ProbeRateIsTight` | include/circuit_breaker.h:35-46 | for every n some run has n + 1 failures within n cooldowns |

## Left out

- Redis, LDAP, gRPC, OpenSSL and Poco: foreign code, represented by a store with expiry, directory answers, a frame sequence and arbitrary hash, JSON and network-membership functions.
- The 32-bit truncation of the remaining life in `revokeToken` (`src/http_server.cpp:3126`): lifetimes are mathematical integers.
- Parsing the Range header and 64-bit overflow of its numbers: the model starts from the parsed range.
- The Content-Range header as text: it is a datatype of its numbers.
- Interleaving inside one life-cycle request: each request is one step. The parts where it matters, the revocation check and the two gates, are modelled step by step in their own modules.
- The denylist's exempt cases (disabled, token without jti) in the multi-instance protocol: they are in the class.
- Ticket refusal after sign-out beyond the session's own expiry: the store entry is not kept longer.
- The `send` and `enroll_begin` actions of the second-factor route, the session-presence registry, the `token_revoked_use` event and the `iss`, `email` and `skname` claims: no credential depends on them.
- The address allow-list of the integration exchange and its signature check: one answer of the environment.
- Filters that splice in a DN found by a search, and extensible matches and UTF-8 validity in the filter grammar of section 3 of RFC 4515.
- Directory searches, JSON responses, routing, CORS, metrics, the thread pool, OAuth discovery and outbound HTTP, `TokenStore`, configuration loading and logging: plumbing, or only easy members.
