# Ai-Auth: gateway and crypto service

A Dafny model of the parts of Ai-Auth that decide who gets in: the vault's rate
limiter and envelope encryption, and the gateway's path from an authorization
request over a passkey login to a sender-constrained, revocable access token. What
is proved are properties of whole runs and for any input. Login, token exchange and
protected routes interleave freely; where a property needs calls that do not
overlap, the theorem says so, and another shows what happens when they do.

| file | models |
|---|---|
| `TokenBucket`, `RateLimiter`, `LimiterRuns` | the two-level token-bucket limiter with its bounded bucket map |
| `Framing`, `Gate`, `Envelope`, `EnvelopeRuns` | length-prefixed framing, the purpose gate, the Guard's handlers over an ideal cipher |
| `WebAuthn` | assertion verification |
| `Authorize`, `LoginStores`, `CodeStores` | the authorization rails, the client registry and the login and code stores |
| `Protocol`, `ProtocolInvariants`, `ProtocolRuns`, `LoginRuns`, `CloneExample`, `HonestFlow` | login-to-token as sixteen atomic steps that interleave freely, with a record of what happened |
| `Handlers` | the finish and token endpoints as imperative code, tied to those steps |
| `Tokens`, `Dpop`, `DpopRaces`, `Revocations`, `Sessions`, `SessionRuns`, `ForgetAfter` | token issue and verification, proofs and the replay cache, both revocation stores, the session middleware |
| `Gateway`, `GatewayRoutes` | the protocol and the protected routes as one machine, with one replay cache, signing key and clock |

Each store is a class whose methods are proved against a step function; the run
theorems are about that step function. A multi-step handler is modelled twice: as a
process with a program counter whose steps interleave with everybody else's
(`Protocol`), and as the method that runs them in a row (`Handlers`).

Modelling choices:

- The limiter's `f64` are reals; calls of one run come in nondecreasing time order
  wherever a rate is stated. `capacity` is a natural number, `refill` at least zero,
  `max_buckets` at least one.
- Time in the gateway is whole nanoseconds; `Unix()` rounds down to seconds.
- Hashes are injective, signatures and seals are records of what was signed or
  sealed, and random values were never drawn before. A seal is as long as its
  12-byte nonce, the plaintext and a 16-byte tag together, and no two are equal.
- Every call under a lock, and every SQL statement, is one atomic step. A proof is
  checked against an earlier clock reading than the one at which it reaches the
  cache, and other calls may come in between; a protected request takes effect with
  that admission, its revocation check included.
- Client input is arbitrary. Parsing (JSON, base64, URLs) is done before the model
  starts: a part that does not parse is `None`.

Where code and comment disagree the model follows the code. What the code does not
meet, with the exact condition under which it does:

- `RevokeToken` asks for the token's expiry as its forget-after. The verifier accepts
  a token up to the leeway beyond that, so a sweep in those 30 seconds lets a revoked
  token back in: `ForgetAfter.ExpiryLetsItIn`. Nor is the leeway enough: the middleware
  reads the clock before it checks the proof and asks about revocation after, and a
  sweep in between lets a request through whose clock reading was in the window:
  `ForgetAfter.OvertakenYetServed`. For requests that take effect within d of their
  clock reading the exact condition is `ForgetAfter.DoorRule`: the forget-after must be
  at or past expiry plus leeway plus d.
- The in-memory store overwrites a forget-after where the table keeps the later one, so
  revoking a token again can shorten its revocation: `ForgetAfter.OverwrittenYetServed`
  is such a run, `Revocations.RememberedExactly` the condition.
- The proof verifier reads its clock outside the replay cache's lock, and a proof can be
  accepted twice by calls that overlap: `DpopRaces.RaceAcceptsTwice`, and
  `DpopRaces.AcceptedAgainExactly` for the condition.
- Overlapping logins with one passkey can write an older counter over a newer one:
  `CloneExample.OverlapLosesTheCount`, and `LoginRuns.CountsIncreaseIffAhead` for the
  condition.
- The SQL store reads an empty subject id as the whole tenant, the in-memory store
  does not: `Revocations.StoresAgreeExactly` says exactly when they agree.

`dafny verify dfyconfig.toml` checks the project.

## Model

| member | source | states |
|---|---|---|
| TokenBucket.Take | crypto/src/limits.rs:69-81 | One take as the code does it: refill for the elapsed time, capped, then one token if there is one; the answer is true exactly when the refilled level is at least 1, and that token is then gone |
| TokenBucket.TakenStaysInRange | crypto/src/limits.rs:69-81 | For any clock, also one running back, the level stays between 0 and the capacity |
| TokenBucket.RefillInTwoSteps | crypto/src/limits.rs:72-74 | Reading the level in between changes nothing: refilling to t and then to u is refilling to u |
| TokenBucket.LevelWithinWindow | crypto/src/limits.rs:69-81 | The level never exceeds what any window of past calls leaves of the capacity and its refill |
| TokenBucket.LevelIsSomeWindow | crypto/src/limits.rs:69-81 | The level equals what some window leaves, so it is the minimum over all windows |
| TokenBucket.GrantsIffRoom | crypto/src/limits.rs:69-81 | The next call is admitted exactly when every window ending with it has room for one more |
| TokenBucket.BucketLaw | crypto/src/limits.rs:69-81 | A log of answers is one the bucket gives if and only if each call is admitted exactly when 1 + admitted calls in every window up to it is at most capacity + refill x window length |
| TokenBucket.Ceiling | crypto/src/limits.rs:69-81 | Calls admitted in any window of length d number at most capacity + refill x d |
| RateLimiter.RateLimiter.constructor | crypto/src/limits.rs:52-66 | A new limiter is empty, with 10000 buckets as its bound |
| RateLimiter.RateLimiter.Allow | crypto/src/limits.rs:85-133 | The answer and both maps afterwards are those of one step of the limiter: global take first, room made only when full, then the tenant's take. Of the buckets, those at capacity go first, and others only if they alone fill the map; which of equally old buckets go is the only freedom |
| RateLimiter.RateLimiter.TakeGlobal | crypto/src/limits.rs:91-101 | The operation's global bucket, created full when absent, is charged and no other |
| RateLimiter.RateLimiter.TakeTenant | crypto/src/limits.rs:128-132 | The tenant's bucket, created full when absent, is charged and no other |
| RateLimiter.RateLimiter.MakeRoom | crypto/src/limits.rs:105-126 | The lossless pass and, if the map is still full, an eviction of least recently used buckets: what is left and what had to go is told by the levels of the buckets alone |
| RateLimiter.RateLimiter.RetainNotFull | crypto/src/limits.rs:110-112 | Exactly the buckets whose level at that instant is below capacity stay |
| RateLimiter.RateLimiter.DropOldest | crypto/src/limits.rs:118-125 | Removes just enough to leave half the bound, and no survivor was used earlier than a removed bucket |
| RateLimiter.RateLimiter.RemoveAll | crypto/src/limits.rs:122-124 | The removal loop ends with exactly the listed keys gone |
| RateLimiter.RoomIsMade | crypto/src/limits.rs:105-126 | Below the bound nothing goes. At the bound every full bucket goes; a bucket below capacity goes only if at least max_buckets are below capacity, half of the bound then stay, and none that stays was used earlier than one that went |
| RateLimiter.OldestFirst | crypto/src/limits.rs:120-121 | All keys, each once, in order of last use |
| RateLimiter.OldestPrefixDrops | crypto/src/limits.rs:119-124 | Any prefix of that order is a least recently used choice |
| LimiterRuns.GlobalLaw | crypto/src/limits.rs:91-101 | Over any run, whatever tenants are named and whatever is evicted, the global bucket of an operation obeys the exact window law at 50 times the rate |
| LimiterRuns.GlobalCeiling | crypto/src/limits.rs:85-101 | Calls allowed for one operation in any window of length d number at most 50 x capacity + 50 x refill x d |
| LimiterRuns.MemoryStep | crypto/src/limits.rs:105-132 | No call takes the bucket map past its bound, and a least-recently-used pass leaves exactly half the bound before the insert |
| LimiterRuns.MemoryIsBounded | crypto/src/limits.rs:105-132 | Every reachable bucket map holds at most max_buckets entries |
| LimiterRuns.PassesAreApart | crypto/src/limits.rs:103-132 | Between two least-recently-used passes at least max_buckets - max_buckets/2 calls got through the global ceiling |
| LimiterRuns.PassesAreAmortized | crypto/src/limits.rs:103-132 | So all but the first of the passes in a stretch are paid for by globally admitted calls |
| LimiterRuns.PassesBoundedByTime | crypto/src/limits.rs:103-132 | With the global ceiling, the number of passes in a window is bounded by its length |
| LimiterRuns.LosslessPassIsInvisible | crypto/src/limits.rs:106-112 | Dropping full buckets changes no level of any key, at that instant or any later one |
| LimiterRuns.EvictedOnlyWhenCrowded | crypto/src/limits.rs:105-126 | In any run a key loses its bucket only while it and at least max_buckets - 1 others are below capacity, and none of the full ones outlives it |
| LimiterRuns.EvictionOvershoot | crypto/src/limits.rs:105-132 | Against the limiter that never evicts, on the same run: every prefix admits at least as many calls of a key, and at most capacity x its evictions more |
| LimiterRuns.NoLossNoDifference | crypto/src/limits.rs:105-132 | Without an eviction of the key all answers on it are those of the never-evicting limiter |
| LimiterRuns.UnboundedLaw | crypto/src/limits.rs:128-132 | The never-evicting limiter gives each key exactly the window law |
| LimiterRuns.TenantLaw | crypto/src/limits.rs:85-133 | A key that was never evicted is served exactly by the window law |
| LimiterRuns.OvershootBoundedByTime | crypto/src/limits.rs:103-132 | A key gains at most its capacity per eviction of it, and the number of those evictions is bounded by elapsed time |
| Framing.BigEndianIsInjective | crypto/src/providers/software.rs:65-65 | Length prefixes of distinct lengths differ |
| Framing.Aad | crypto/src/providers/software.rs:62-68 | The associated data is the domain, the 8-byte length and the tenant id, in that order |
| Framing.FramesAreLaidOut | crypto/src/providers/software.rs:60-68 | Read back byte by byte: domain, a length that spells out in eight big-endian bytes, the tenant; and for the index frame the same twice over |
| Framing.AadIsInjective | crypto/src/providers/software.rs:60-68 | Equal associated data means equal domain and equal tenant |
| Framing.IndexFrameIsInjective | crypto/src/providers/software.rs:163-170 | Equal blind-index frames mean equal tenant and equal input |
| Framing.DomainsAreSeparate | crypto/src/providers/software.rs:22-27 | No blind-index frame is the associated data of a sealing |
| Gate.Validate | crypto/src/context.rs:14-47 | A request passes if and only if it names a request, a tenant, a subject where one is needed, and the wire number of exactly the wanted purpose; permission_denied if and only if it names all that and one of the other three purposes; everything else is invalid_argument |
| Envelope.Guard.constructor | crypto/src/service.rs:31-39 | A new Guard has an empty limiter of 120 calls, 20 a second and 10000 buckets, no sealings and no audit lines |
| Envelope.Guard.EncryptField | crypto/src/service.rs:143-179 | Gate, then budget, then the work: the reply, the sealings made and the one audit line are those of the specified step, and a gate refusal spends no budget. A wrapped key that was sent is the one that comes back, and then no data key is drawn |
| Envelope.Guard.Decrypt | crypto/src/service.rs:181-204 | The same for decryption, which seals nothing |
| Envelope.Guard.VerifyAssertion | crypto/src/service.rs:87-141 | Gate, budget, missing parts, verdict, in that order, each with its status and one audit line; a rejection answers with the stored counter |
| Envelope.VouchedMeans | crypto/src/service.rs:87-139 | The Guard answers verified with counter n if and only if the question states the passkey purpose with a request and a tenant, is in budget, and its assertion is a login over the challenge, for the origin and the relying party hash in the question, with the user present, signed by the credential's key, and n is its counter, zero or ahead of the stored one; any other answer hands back the stored counter |
| Envelope.Guard.WithinLimits | crypto/src/service.rs:44-55 | One token is spent; only a refusal is audited |
| Envelope.Guard.GenerateWrappedDek | crypto/src/providers/software.rs:116-125 | A fresh 32-byte key sealed under the key encryption key for the tenant, or the provider's error and nothing sealed |
| Envelope.Guard.EncryptUnder | crypto/src/providers/software.rs:127-136 | Seals under the unwrapped key for the tenant, or fails and seals nothing |
| EnvelopeRuns.UnwrapIsMinted | crypto/src/providers/software.rs:104-113 | A successful unwrap yields a 32-byte key that was minted for that tenant |
| EnvelopeRuns.RunIsSound | crypto/src/service.rs:143-204 | After every run, wrapped keys hold drawn 32-byte keys, each wrapped once, and every sealed field has a call that wrote it |
| EnvelopeRuns.WrittenOpens | crypto/src/providers/software.rs:127-147 | What was written for a tenant opens for that tenant, to what was written, at any later time |
| EnvelopeRuns.OpenedWasWritten | crypto/src/providers/software.rs:138-147 | Whatever opens for a tenant was written for that tenant as that very pair |
| EnvelopeRuns.TenantBoundEnvelope | crypto/src/service.rs:181-204 | A gated, in-budget decryption for t returns p if and only if that pair came from an encryption of p for t |
| EnvelopeRuns.OtherTenantsAreDenied | crypto/src/service.rs:57-69 | A pair written for one tenant is permission_denied to every other, never an internal error |
| EnvelopeRuns.UnwrapsExactly | crypto/src/providers/software.rs:104-113 | Over every run a wrapped key unwraps for a tenant if and only if some call returned it to that tenant |
| EnvelopeRuns.SuppliedKey | crypto/src/service.rs:157-174 | With a wrapped key it draws none: it is done, and returns that key, if and only if some earlier call returned that key to this tenant; otherwise permission_denied if the key encryption key is there and usable, internal if not |
| EnvelopeRuns.FirstWrite | crypto/src/providers/software.rs:116-125 | Without a wrapped key an encryption is done if and only if there is a 32-byte key encryption key; it draws exactly one new data key and returns it wrapped for the tenant |
| EnvelopeRuns.RowSharesItsKey | crypto/src/service.rs:157-174 | A second field sent with the row's wrapped key is done under that very key, and both fields open with it from then on |
| EnvelopeRuns.UnwrittenIsRefused | crypto/src/service.rs:57-69 | A pair no call wrote for the tenant is refused: permission_denied if the key encryption key is there and usable, internal otherwise |
| EnvelopeRuns.IndexesSeparateTenants | crypto/src/providers/software.rs:149-173 | Blind indexes under one key are equal exactly for equal tenant and input |
| WebAuthn.SignCountRoundTrip | crypto/src/webauthn.rs:104-126 | Reading authenticator data back gives the relying party hash, flags and counter that were laid out |
| WebAuthn.HonestLogin | crypto/src/webauthn.rs:70-144 | An honest assertion verifies exactly when its counter is zero or ahead of the stored one, and reports that counter; otherwise it is a sign count regression |
| WebAuthn.VerifiedExactly | crypto/src/webauthn.rs:70-144 | An assertion is verified if and only if it is the credential's signature over a login for this challenge, origin and relying party with the user present and a counter that is zero or ahead; that counter is reported |
| WebAuthn.RejectionMeans | crypto/src/webauthn.rs:70-144 | Each rejection names a check that fails |
| Tokens.Issue | gateway/internal/tokens/sign.go:85-123 | Fails exactly on a lifetime that is not positive, on missing randomness, or when encoding or signing fails; otherwise stamps issuer, floored times and a fresh jti only where none is given |
| Tokens.LifetimeIsExact | gateway/internal/tokens/sign.go:178-184 | A token issued at t verifies exactly from the floored t less the leeway to the floored t + ttl plus it, and how far that is from the nominal lifetime |
| Tokens.AcceptedExactly | gateway/internal/tokens/sign.go:145-194 | A token is accepted if and only if it is well formed, its claims were signed, and they are inside their window, 30 s wider at both ends, for this issuer and audience; an error names a check that fails, and time, issuer and audience are told of signed claims only |
| Tokens.SplitIsUnique | gateway/internal/tokens/sign.go:196-218 | A string has at most one split into three nonempty parts at its first two dots |
| Tokens.SplitThree | gateway/internal/tokens/sign.go:196-218 | The loop finds that split if there is one, and reports failure only if there is none |
| Dpop.PassesExactly | gateway/internal/dpop/verify.go:96-178 | A proof passes if and only if it is well formed, signed by the key it names, for this method up to case and this address, scheme and host up to case and the very same path, dated within 60 s, and bound to the token if there is one |
| Dpop.FoldsCase | gateway/internal/dpop/verify.go:219-232 | The comparison of methods, schemes and hosts holds exactly up to case, which among ASCII strings is ASCII case |
| Dpop.ErrorMeans | gateway/internal/dpop/verify.go:96-178 | Each error names a check that fails; an address that is the same is never refused as another |
| Dpop.ReplayCache.Admit | gateway/internal/dpop/verify.go:260-283 | Whether a jti is new and fits, and the exact cache afterwards; the bound is kept |
| Dpop.ReplayCache.DeleteExpired | gateway/internal/dpop/verify.go:269-273 | The sweep removes exactly the entries whose time is over |
| Dpop.Verifier.Verify | gateway/internal/dpop/verify.go:96-186 | Accepts if and only if the proof fits method, address, time and token and its jti is new with room for it, and then reports its key; otherwise the first failing check in the order of the code; a proof failing an earlier check leaves no trace in the cache |
| DpopRaces.RememberedExactly | gateway/internal/dpop/verify.go:260-283 | The cache remembers an accepted jti exactly until a call sweeps it after 2 x MaxAge from the clock reading of its acceptance |
| DpopRaces.AcceptedAgainExactly | gateway/internal/dpop/verify.go:176-183 | A jti accepted before is accepted again, by a call that passes its checks, if and only if such a sweep came in between and there is room; however calls overlap |
| DpopRaces.ReusedOnlyMuchLater | gateway/internal/dpop/verify.go:179-183 | A jti is accepted again only by a call that reaches the cache more than 2 x MaxAge after the first call's clock reading; one that does not overlap reads its own clock after that |
| DpopRaces.TwiceOnlyByRace | gateway/internal/dpop/verify.go:153-183 | However calls overlap between clock reading and cache, a proof is accepted twice only if a sweep past its memory comes after the second call's clock reading and before its admission, and only a proof dated ahead by all of MaxAge but that gap |
| DpopRaces.NoProofTwice | gateway/internal/dpop/verify.go:153-183 | When calls do not overlap, no proof is accepted twice, although jtis are forgotten (sections 4.3 and 11.1 of RFC 9449) |
| DpopRaces.RaceAcceptsTwice | gateway/internal/dpop/verify.go:153-183 | When they do, it can happen: for every cache size from two up, a run in which one proof is accepted twice |
| DpopRaces.RacingRunExists | gateway/internal/dpop/verify.go:267-283 | That run exists for every cache size |
| Dpop.CacheIsBounded | gateway/internal/dpop/verify.go:267-283 | The cache never exceeds its bound |
| Dpop.LiveIsRecent | gateway/internal/dpop/verify.go:260-283 | The unexpired entries are exactly the jtis accepted in the last 2 x MaxAge, also when calls overlap |
| Dpop.NewProofAdmittedIffRoom | gateway/internal/dpop/verify.go:176-183 | A new jti that passes all checks is admitted if and only if fewer than max jtis were accepted in the last 2 x MaxAge, also when calls overlap |
| Revocations.MemoryStore.RevokeToken | gateway/internal/sessions/revoke.go:50-55 | The forget-after is overwritten, then lapsed tokens are swept |
| Revocations.MemoryStore.RevokeSubject | gateway/internal/sessions/revoke.go:59-63 | The subject's cutoff becomes the current time |
| Revocations.MemoryStore.RevokeTenant | gateway/internal/sessions/revoke.go:67-71 | The tenant's cutoff becomes the current time |
| Revocations.MemoryStore.IsRevoked | gateway/internal/sessions/revoke.go:78-94 | True exactly for a listed token or an issue time at or before the subject's or tenant's cutoff |
| Revocations.MemoryStore.Sweep | gateway/internal/sessions/revoke.go:99-106 | The loop drops exactly the tokens past their forget-after |
| Revocations.SqlStore.RevokeToken | gateway/internal/store/revocations.go:23-30 | The upsert keeps the later forget-after; a failed statement is reported, whether or not it took effect |
| Revocations.SqlStore.RevokeSubject | gateway/internal/store/revocations.go:35-43 | The upsert keeps the later cutoff; a failed statement is reported, whether or not it took effect |
| Revocations.SqlStore.RevokeTenant | gateway/internal/store/revocations.go:47-49 | The tenant-wide row is the one with the empty subject; errors as for a subject |
| Revocations.SqlStore.DeleteExpired | gateway/internal/store/revocations.go:68-71 | Drops exactly the token rows past their forget-after; a failed statement is reported, whether or not it took effect |
| Revocations.SqlStore.IsRevoked | gateway/internal/store/adapter.go:108-120 | The query's answer, and true whenever the database fails |
| Revocations.CutoffsOnlyAdvance | gateway/internal/sessions/revoke.go:59-71 | An issue time once cut off stays cut off in either store, through any further steps |
| Revocations.NamedTokensAreHeld | gateway/internal/store/revocations.go:23-30 | Up to the earliest forget-after both stores hold exactly the tokens that were revoked |
| Revocations.StoresAgreeExactly | gateway/internal/store/revocations.go:54-64 | The stores give the same cutoff answers to every query if and only if no empty-subject revocation is ahead of its tenant's cutoff |
| Revocations.EmptySubjectExample | gateway/internal/store/revocations.go:45-49 | A run on which they differ: revoking the empty subject cuts off the whole tenant in SQL only |
| Revocations.StoresSimulateEachOther | gateway/internal/sessions/revoke.go:50-106 | On runs with nonempty subjects and up to the token's earliest forget-after they answer every query alike |
| Revocations.RefusedExactly | gateway/internal/sessions/revoke.go:78-98 | Over every run each store refuses a token if and only if it still remembers it, or its subject or tenant was revoked at or after its issue time; nobody else is refused, but that SQL takes the empty subject for the whole tenant |
| Revocations.CutoffAgainstIssueTime | gateway/internal/sessions/revoke.go:85-92 | Against floored issue times a cutoff refuses every token issued at or before it and none issued a second or more after |
| Revocations.CutoffIsPermanent | gateway/internal/sessions/revoke.go:85-98 | After a subject or tenant revocation at or after the issue time the token is refused for good, in both stores |
| Revocations.RememberedExactly | gateway/internal/sessions/revoke.go:48-55 | In any run the in-memory store remembers a token exactly by its last revocation, until a later revocation of any token comes past its forget-after; the table exactly by any revocation whose forget-after no cleaning has passed |
| Revocations.TokenRevocationLasts | gateway/internal/sessions/revoke.go:48-55 | Up to a revocation's forget-after the table refuses the token whatever follows; the in-memory store does unless a later revocation of it is to be forgotten sooner |
| CodeStores.CodeStore.Issue | gateway/internal/oidc/codes.go:66-80 | Expired codes go, the new one stands for the grant until 60 s later; nothing happens without randomness |
| CodeStores.CodeStore.Redeem | gateway/internal/oidc/codes.go:85-107 | The code is gone whatever the answer; it is granted if and only if it was there, unexpired, for this client and this redirect, and a refusal names a check that fails |
| CodeStores.CodeTable.Issue | gateway/internal/store/adapter.go:28-51 | An insert that succeeds, fails on a duplicate, or is lost with or without effect |
| CodeStores.CodeTable.Redeem | gateway/internal/store/adapter.go:53-75 | Delete and read in one statement; granted on the same condition, every refusal collapses to one, and a database error denies |
| CodeStores.CodeTable.DeleteExpired | gateway/internal/store/postgres.go:121-124 | Exactly the expired rows go, when the statement is applied; a failed one is reported, whether or not it took effect |
| CodeStores.StoresRefine | gateway/internal/store/postgres.go:81-124 | On every run, database errors with or without effect included, both stores refine a specification that never forgets: unexpired unburned codes are held, nothing else answers |
| CodeStores.StoresAnswerAlike | gateway/internal/oidc/token.go:71-81 | So the token endpoint gets the same grants from either store, and eviction and cleaning are unobservable |
| CodeStores.FirstAttemptBurns | gateway/internal/oidc/codes.go:82-93 | After any attempt on a code, right or wrong, no attempt succeeds |
| CodeStores.AtMostOneSuccess | gateway/internal/store/postgres.go:81-117 | For any number of replicas and interleavings each code succeeds at most once |
| Authorize.AllowsRedirect | gateway/internal/oidc/authorize.go:38-47 | True exactly for a registered redirect, whole strings compared |
| Authorize.AcceptedOnRails | gateway/internal/oidc/authorize.go:62-109 | Acceptance if and only if every rail holds, the request then carried over unchanged; any error that may be sent to the redirect has a registered one |
| Authorize.PkceOpensExactly | gateway/internal/oidc/authorize.go:117-129 | A stored challenge is opened exactly by the verifier it is the hash of, within its length limits, so by one at most (section 4.6 of RFC 7636) |
| Authorize.Registry.Register | gateway/internal/oidc/registry.go:34-60 | Stores exactly when the id is nonempty and new and every redirect acceptable; never overwrites, and keeps its own copy |
| LoginStores.PendingStore.Put | gateway/internal/oidc/pending.go:34-51 | Expired requests go, the new one stands for ten minutes |
| LoginStores.PendingStore.Take | gateway/internal/oidc/pending.go:55-67 | Single use: the entry is gone whatever the answer, and an expired one is no answer |
| LoginStores.Challenges.Issue | gateway/internal/login/store.go:51-68 | A new challenge replaces the previous one for the same request and stands for two minutes |
| LoginStores.Challenges.Take | gateway/internal/login/store.go:72-84 | Single use, as for pending requests |
| LoginStores.Credentials.Add | gateway/internal/login/store.go:104-108 | The credential is stored under its id |
| LoginStores.Credentials.Get | gateway/internal/login/store.go:110-118 | The stored credential or none |
| LoginStores.Credentials.UpdateSignCount | gateway/internal/login/store.go:123-133 | Only the counter of a known credential changes |
| Common.EvictExpired | gateway/internal/oidc/codes.go:111-118 | The sweep loop of the stores leaves exactly the unexpired entries |
| ProtocolInvariants.StepFrame | gateway/internal/login/ceremony.go:78-171 | Which stores and records each atomic step can touch, and that client registrations are never changed |
| ProtocolInvariants.LoginStep | gateway/internal/login/ceremony.go:134-163 | Every step keeps: pending requests are unconsumed validated ones, consumptions carry a verified judgement for that request, each code answers a consumption in time, and no two codes answer one request |
| ProtocolInvariants.ChallengeStep | gateway/internal/login/store.go:51-84 | Every step keeps: stored challenges are untaken, the Guard is asked about taken challenges for their own request, none twice, and no two calls hold one |
| ProtocolInvariants.TokenStep | gateway/internal/oidc/token.go:71-121 | Every step keeps: stored codes are unredeemed, redemptions match client, redirect and lifetime, each token comes from one redeemed code whose verifier fits, and no two tokens share a code |
| ProtocolInvariants.OrderStep | gateway/internal/login/ceremony.go:85-143 | Every step keeps: a request is consumed only after the challenge of its judgement was taken |
| ProtocolRuns.InvariantsHold | gateway/internal/login/ceremony.go:78-171 | These invariants hold in every state of every interleaving |
| ProtocolRuns.Provenance | gateway/internal/oidc/token.go:71-121 | Every token goes back to one redeemed code, one consumed request on the rails and one verified assertion: client, registered redirect, scope, challenge, subject and tenant equal along the chain, every hop in order and within its lifetime, 10 min for the request, 2 min for the challenge, 60 s for the code (sections 4.1.2 and 4.1.3 of RFC 6749) |
| ProtocolRuns.TokensDoNotShareAnything | gateway/internal/oidc/token.go:71-121 | Distinct tokens come from distinct codes, requests, judgements and challenges |
| ProtocolRuns.OneCodePerAuthorization | gateway/internal/login/ceremony.go:142-163 | Under any interleaving, also with several verified calls for one request, at most one code is issued for it |
| ProtocolRuns.RequestsWereValidated | gateway/internal/oidc/authorize.go:60-109 | Every request on record was put aside by an authorization step whose parameters passed the rails at that moment |
| ProtocolRuns.JudgementsWereAsked | gateway/internal/login/ceremony.go:110-132 | Every verdict on record was given to a call holding that challenge and credential; it is verified if and only if the credential's key had signed a login over that challenge for our origin and relying party with the user present and a counter that is zero or ahead |
| LoginRuns.ChallengeJudgedOnce | gateway/internal/login/ceremony.go:85-91 | No challenge reaches the Guard twice, and it is judged for the request it was begun for |
| LoginRuns.ReplacedIsNeverJudged | gateway/internal/login/store.go:64-67 | A challenge replaced by a later begin before it was taken is never taken and never reaches the Guard |
| LoginRuns.JudgedCredentialsWereAdded | gateway/internal/login/ceremony.go:93-113 | Every judged credential was registered, with that key, subject and tenant |
| LoginRuns.CountsIncreaseIffAhead | gateway/internal/login/ceremony.go:134-140 | For a credential registered once, in every run: the stored counter is the registered one or the last nonzero one accepted; and the accepted ones strictly increase if and only if each was ahead of the stored counter when it was written back |
| LoginRuns.CloneDetection | crypto/src/webauthn.rs:119-129 | They do increase when no call writes a nonzero counter back while another holds the credential that will write one too, whatever calls the Guard rejects do meanwhile (section 7.2 of W3C WebAuthn Level 2) |
| LoginRuns.NoOverlapKeepsWritesApart | gateway/internal/login/ceremony.go:93-140 | Calls for the credential that do not overlap at all are such calls |
| CloneExample.OverlappingRunIsValid | gateway/internal/login/ceremony.go:93-140 | The thirteen steps of the next row are a run of the protocol that registers its credential once |
| CloneExample.OverlapLosesTheCount | gateway/internal/login/ceremony.go:134-140 | Two overlapping calls, both honest, accept 7 and then 6, the stored counter ends at 6 and the log does not increase: the condition of clone detection is needed |
| Handlers.Ceremony.Begin | gateway/internal/login/ceremony.go:55-74 | An empty request id is refused; otherwise the store is that of the begin step |
| Handlers.Ceremony.Authenticate | gateway/internal/login/ceremony.go:85-140 | The first five steps of a call in a row: challenge, credential, verdict, counter; they authenticate if and only if the challenge was there in time and the registered credential's key signed over it for this origin and relying party |
| Handlers.Ceremony.Finish | gateway/internal/login/ceremony.go:78-171 | The handler run alone leaves all four stores and the issued codes as the seven protocol steps taken in a row do. It returns a code if and only if the login authenticates, its request is still there and a code can be drawn; the code stands for 60 s for that request, nonce included, and that passkey's subject and tenant |
| Handlers.TokenEndpoint.Redeem | gateway/internal/oidc/token.go:71-87 | The first three steps of an exchange in a row: complete parameters, an unexpired code of this client and redirect, a verifier that opens its challenge |
| Handlers.TokenEndpoint.CheckPossession | gateway/internal/oidc/token.go:89-108 | Where a proof is asked for it is accepted if and only if it is a new and fresh one for a POST to this endpoint, signed by the key it names, and that key is reported |
| Handlers.TokenEndpoint.ServeHTTP | gateway/internal/oidc/token.go:44-129 | The handler run alone leaves the codes and tokens as the five protocol steps taken in a row do, and spends the proof only after the code was redeemed and its verifier fits. It returns a token if and only if the POST's code and verifier fit, a token can be made, and, where a proof is asked for, it shows a new and fresh proof for a POST to the endpoint's address; the token has the code's subject, tenant and scope, lives 10 min, and is bound to the hash of the proof's key |
| HonestFlow.HonestLoginGetsCode | gateway/internal/login/ceremony.go:78-171 | From any state, a validated request whose challenge is answered in time by a registered passkey gets a code that stands for 60 s for that request, nonce included, subject and tenant |
| HonestFlow.HonestExchangeGetsToken | gateway/internal/oidc/token.go:71-121 | An unexpired code presented by its client, at its redirect, with its verifier and a new, fresh proof for a POST to the endpoint is exchanged for a token with its claims, bound to that proof's key |
| HonestFlow.HonestUserGetsToken | gateway/internal/oidc/token.go:71-121 | Authorize, begin, finish and exchange, each in time, end in exactly one more token: issuer, audience, subject, tenant, scope, times and bound key are spelled out |
| Sessions.DpopTokenIsCarried | gateway/internal/sessions/middleware.go:103-110 | A token is found exactly when the header is the DPoP scheme, white space, the token, white space, and it is that token |
| Sessions.PresentedMeans | gateway/internal/sessions/middleware.go:61-80 | What gets as far as the proof check: a verified signed token in its window that names a key, with a proof |
| Sessions.ServedExactly | gateway/internal/sessions/middleware.go:51-97 | A request is served if and only if its header carries a token that is signed, in its window and meant for this server, its proof is for this method, address and token, signed by the key the token names, fresh and new, and the token is not revoked |
| Sessions.ChallengedMeans | gateway/internal/sessions/middleware.go:51-97 | Each challenge names a check that fails; a replay only of a proof that fits |
| Sessions.Authenticator.Require | gateway/internal/sessions/middleware.go:51-99 | Scheme, token, binding, proof, revocation in that order: the answer names the first that fails, and the proof is spent before revocation, with either store, is asked about; a database that cannot answer counts as revoked |
| SessionRuns.InvHolds | gateway/internal/sessions/middleware.go:51-99 | In every state of every run, however steps overlap before they take effect, the stores are those of the recorded attempts and revocations, every bound token names the key of an accepted proof, and every pass presented an issued token with an accepted proof |
| SessionRuns.SenderConstraint | gateway/internal/sessions/middleware.go:58-85 | Every request that reaches a handler presents an issued, in-window token and a fresh proof for that token, for the request's method, for its very path and for its scheme and host up to case, signed by the key that proved possession when that token was issued; unbound tokens never get through |
| SessionRuns.EveryPassItsOwnProof | gateway/internal/dpop/verify.go:176-183 | Distinct passes consume distinct proofs when steps do not overlap; two passes with one proof have raced as DpopRaces.TwiceOnlyByRace says |
| SessionRuns.IssueProofsOpenNothing | gateway/internal/oidc/token.go:89-108 | The same of a pass and a proof that was shown when a token was issued |
| SessionRuns.CutoffHoldsAtTheDoor | gateway/internal/sessions/middleware.go:87-97 | After a subject or tenant revocation no token of theirs issued up to then is served again, through any further steps, with either store |
| SessionRuns.MintedBeforeIsCutOff | gateway/internal/sessions/revoke.go:85-92 | In particular none minted at an earlier step of the run |
| SessionRuns.RevokedWhileKept | gateway/internal/sessions/middleware.go:61-97 | A revoked token is not served, also by a request that read its clock long before, as long as no revocation step has come after the instant up to which it is kept; in memory, unless a later revocation of it cuts that short |
| SessionRuns.RevokedTokenStaysOut | gateway/internal/sessions/middleware.go:61-97 | A token revoked with a forget-after at or past expiry plus leeway is never served again by a request that no revocation step overtakes after its clock reading: with the SQL store whatever follows, with the in-memory store as long as every later revocation of it is kept that long too; ForgetAfter.DoorRule is the rule for requests that may be overtaken |
| SessionRuns.ForgetAfterRule | gateway/internal/sessions/revoke.go:48-55 | Of the store alone, asked at one instant: it refuses a revoked token in every continuation and at every instant of the token's window if and only if the forget-after is at or past expiry plus leeway; the in-memory store, in every continuation whose further revocations of that token are kept that long too |
| SessionRuns.ExpiryIsTooEarly | gateway/internal/sessions/revoke.go:48-49 | With the forget-after the comment asks for, the token's expiry, there is a continuation in which the store no longer refuses it while it verifies |
| SessionRuns.OverwritingForgets | gateway/internal/sessions/revoke.go:50-55 | Revoking a token again with a nearer forget-after undoes a lasting revocation in memory, and not in the table |
| ForgetAfter.ServedUnlessRefused | gateway/internal/sessions/middleware.go:51-97 | A token honestly minted, any revocations, then a request whose clock reading is in the window: a valid run, and the request is served if and only if the store does not refuse the token after those revocations |
| ForgetAfter.DoorRule | gateway/internal/sessions/revoke.go:48-55 | Of a token the server can have minted by then, and requests that take effect within d of their clock reading: a token revocation keeps all of them out, in every run, if and only if its forget-after is at or past expiry plus leeway plus d, or the revocation itself comes later than that; in memory, in every run whose further revocations of that token are kept that long too |
| ForgetAfter.OvertakenYetServed | gateway/internal/sessions/middleware.go:61-97 | With any earlier forget-after, a run in which the revoked token is served, with either store: the request reads its clock at the end of the token's window, and a sweep comes d later, just ahead of the revocation check |
| ForgetAfter.ExpiryLetsItIn | gateway/internal/sessions/revoke.go:48-49 | With the forget-after the comment asks for, the token's expiry, some request that nothing overtakes is served |
| ForgetAfter.LeewayLetsTheOvertakenIn | gateway/internal/sessions/revoke.go:48-55 | Expiry plus leeway keeps out every request that takes no time, and not every one that takes any |
| ForgetAfter.OverwrittenYetServed | gateway/internal/sessions/revoke.go:50-55 | A run in which revoking a token again with a nearer forget-after gets it served through the in-memory store, and turned away with the table |
| Gateway.InvStep | gateway/internal/oidc/token.go:71-121 | Every step of the whole gateway keeps both sides' invariants, that they record the same tokens, and that each token was minted by the call that redeemed its code and is bound by the proof this call showed |
| Gateway.EveryPassGoesBackToALogin | gateway/internal/sessions/middleware.go:51-99 | Every request that reaches a protected handler goes back, through the key proved in the exchange of its token's code, to one consumed validated request and one verified assertion over a challenge begun for it |
| Gateway.DifferentTokensDifferentLogins | gateway/internal/oidc/token.go:71-121 | In the whole gateway distinct tokens come from distinct codes, requests and challenges |
| GatewayRoutes.SameRoutes | gateway/internal/sessions/middleware.go:51-99 | Every run of the whole gateway projects to a run of the protected routes with the same replay cache, revocations, tokens, attempts and passes |
| GatewayRoutes.RoutedIsValid | gateway/internal/sessions/middleware.go:51-99 | The projection is a valid run, and steps that do not overlap stay so |
| GatewayRoutes.CutoffHolds | gateway/internal/sessions/middleware.go:87-97 | In the whole gateway, after a subject or tenant revocation no token of theirs issued up to then is served, whatever logins, exchanges and requests go on |
| GatewayRoutes.RevokedStaysOut | gateway/internal/sessions/revoke.go:48-55 | The sufficient half of the door rule in the whole gateway: forget-after at or past expiry plus leeway plus d keeps out every request that takes effect within d |
| GatewayRoutes.EveryPassItsOwnProof | gateway/internal/dpop/verify.go:176-183 | In the whole gateway distinct passes consume distinct proofs when steps do not overlap, and two passes with one proof have raced |
| GatewayRoutes.IssueProofsOpenNothing | gateway/internal/oidc/token.go:89-108 | The same of a pass and a proof that an exchange showed for its token |

## Left out

- Floating-point rounding: levels are exact reals, so drift of `f64` sums is not covered.
- Clocks that run back: the limiter's rate bounds and the cache and store theorems take one nondecreasing clock for the instants at which steps take effect; only `0 <= tokens <= capacity` holds for any clock.
- Lock poisoning and the moment between reading the clock and taking the lock: a limiter call is one step at one instant.
- AES-GCM, HMAC, SHA-256 and ECDSA: ideal versions stand in, and key erasure is not modelled.
- Library parsers: `validateRedirectURI`, `sameURI`, `parseJWK`, JSON and base64 appear as already parsed values or as a predicate on them.
- Dpop.PassesExactly: folds case as the code does wherever one side is ASCII, as methods, schemes and host names are; two letters outside ASCII that differ in case only are not folded.
- Database engine: a database error may or may not have applied the statement, and denies; grants and the schema are not modelled.
- Precision of Postgres timestamps: both revocation stores keep nanoseconds, and one clock serves the gateway and the database.
- `Require` in smaller steps: the admission of the proof and the revocation check are one step, so a revocation never falls between the two; any time the code spends before asking about revocation is part of the d of `ForgetAfter.DoorRule`.
- Codes lost between replicas: `Protocol` uses the in-memory code store; `CodeStores.StoresAnswerAlike` carries over what the endpoint sees to the SQL table.
- Responses: redirects to the client, HTTP status lines, headers, challenges, logging, and which log line goes with a refusal.
- gRPC, TLS, start-up, profiles, discovery and key documents, generated code, and the services that exist as documentation only: single-branch facts or plumbing.
- The blind-index handler's gate and audit line: the same shape as the three handlers that are modelled; its framing is.
