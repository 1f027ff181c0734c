# Consumel server: verified models of its shared-state protocols

Several API instances share one Redis and one PostgreSQL. This project models the parts of the server whose
correctness rests on what those instances do to each other, and proves in Dafny what they guarantee.

| module | what it models |
|---|---|
| `HybridLimit`, `LimiterRuns`, `LimiterGoverning`, `LimiterRefinements` | one limiter key in exact integers: token bucket, sliding-window log, retry, expiry; theorems over whole runs |
| `RedisScript`, `KeyspaceRuns`, `RedisLimiter` | the Lua script over a Redis keyspace, with fractional tokens, refining the integer model; whole runs over one keyspace with expiry; the `Allow` call |
| `AttemptGuards`, `GuardRuns`, `GuardChecks` | the declared rules, the guards' charges, all interleavings of checks and requests charge by charge, one check and one request |
| `Sessions`, `SessionStore`, `SessionCache` | the session cap as an interleaving of transactions, one `Create` call, cache jitter and staleness |
| `VerificationStore`, `VerificationRuns`, `VerificationLife` | email-verification challenges in Redis: one call, all interleavings of its commands, and how long a challenge lasts |
| `UserResolution` | get-or-create of users: the race, and one call with others committing around it |
| `Migrations` | data migrations 002 and 003, up and down |
| `AccessQuery`, `OrganizationCreation`, `OrganizationStore` | the active-access join, the organization transaction and its service |

Code that changes state is a class or a method whose postconditions give the new state as a function of, or a relation
to, the old one; what the source promises is then proved about those functions and relations. Concurrency is an
interleaving of atomic steps: a Redis command or script, or an SQL statement with its Read Committed snapshot, and the
theorems quantify over every run. I/O outcomes, clocks, random draws and row orders are parameters.

One token of the bucket is counted as `P` units, `P` being the restoration period in milliseconds: a millisecond restores
`L` units, a request costs `P`, the bucket holds `L*P`, and all arithmetic is exact. `ScriptSteps` proves that the script
computes this from fractional tokens.

Where code and documentation, or code and expectation, differ, the model follows the code:

- `Issue` accepts a lifetime under one millisecond, but Redis refuses the zero expiry it becomes after the script has
  already deleted the user's previous challenge. `ShortLifetimeLosesChallenge` shows one such call and `IssueIsAtomic`
  says exactly when it happens.
- `validateRule` accepts durations that the conversion to milliseconds then truncates. A restoration period under one
  millisecond reaches the script as zero and disables the bucket, and a window under one millisecond disables the hard
  limit; `BucketDisabled` and `WindowDisabled` show that no other rule is affected. Any other duration is enforced without
  its fraction of a millisecond: the limiter theorems speak of the rule `Milliseconds(rule)` that the script receives, with
  both durations at least one. All declared rules are whole milliseconds.
- A session creation takes its creation time before it waits for the lock, so it can succeed with its own session already
  revoked. `OvertakenCreation` shows one and `KeepsOwn` says exactly when.
- Migration 002 does not come back when an organization had two owner memberships, which version 001 allowed.
  `OwnersRoundTrip` proves that this is the only obstacle.
- The comment in `session_store.go` speaks of three sessions; the cap is whatever maximum is configured.
- The window limit is not redundant for every rule: `GoverningLimit` gives the exact condition.

## Model

| member | source | states |
|---|---|---|
| `LimiterRuns.StateBounds` | internal/infra/ratelimit/redis.go:29-49 | After any non-empty run, whatever the order of its clock readings, the stored tokens lie between zero and the full allowance and the log holds at most the hard limit |
| `LimiterRuns.Potential` | internal/infra/ratelimit/redis.go:29-49 | In a chronological run, what the allowed calls of an interval spent plus what is left at its end was there at its start or was restored meanwhile |
| `LimiterRuns.TokenBucketBound` | internal/infra/ratelimit/redis.go:29-49 | In every chronological run and for all `from <= to`, the number `n` of allowed calls in `[from, to]` satisfies `n*P <= L*P + (to-from)*L`, whatever happens after `to` |
| `LimiterRuns.LogIsAllowedTimes` | internal/infra/ratelimit/redis.go:40-47 | The live part of the sorted set is exactly the sequence of allowed times still inside the window |
| `LimiterRuns.SlidingWindowBound` | internal/infra/ratelimit/redis.go:40-47 | In every chronological run no interval `(t-W, t]` holds more allowed calls than the hard limit |
| `LimiterRuns.UnorderedBound` | internal/infra/ratelimit/redis.go:37-49 | With clock readings in any order, the allowed calls of a run cost at most one full allowance plus what all forward movements of the readings restore |
| `LimiterRuns.ForwardInOrder` | internal/infra/ratelimit/redis.go:37 | For readings that never go back, those forward movements add up to the time between the first and the last |
| `LimiterGoverning.GoverningLimit` | internal/infra/ratelimit/redis.go:37-47 | For every rule, the window test is redundant in all runs if and only if `(M+1)P > LP + (W-1)L` |
| `LimiterGoverning.WindowDecidesSomeRun` | internal/infra/ratelimit/redis.go:37-47 | When the numbers fall short, one explicit burst fills the window while the bucket still has a token |
| `AttemptGuards.GoverningDeclaredRules` | internal/infra/authentication/attempt_guards.go:16-93 | Over the fifteen declared rules, the window can deny what the bucket allows exactly for sign-in per address and the two HTTP rules |
| `LimiterRefinements.DeniedCallsAreInert` | internal/infra/ratelimit/redis.go:37-52 | Deleting any set of denied calls from a chronological run changes no decision and no retry value of the calls that remain |
| `LimiterRefinements.IdleIsFresh` | internal/infra/ratelimit/redis.go:50-52 | A key idle for the longer of the two periods, half its time to live, has a full bucket and an empty log, so losing it loses nothing |
| `LimiterRefinements.ExpiryIsUnobservable` | internal/infra/ratelimit/redis.go:49-52 | With either key vanishing at any time its idle time allows, every decision and retry is the one given by keys kept forever |
| `LimiterRefinements.RetryExactAtOnce` | internal/infra/ratelimit/redis.go:54-66 | A denial's retry is at least 1, and a call `d` ms later is allowed if and only if `d` has reached it |
| `LimiterRefinements.RetryExact` | internal/infra/ratelimit/redis.go:54-66 | The same with any number of further denied calls in between |
| `LimiterRefinements.NothingBeforeRetry` | internal/infra/ratelimit/redis.go:54-66 | Until the retry has passed, every further call is denied, however many there are |
| `LimiterRefinements.AllowedRetryExact` | internal/infra/ratelimit/redis.go:54-66 | The retry given with an allowed call marks the first instant at which the bucket affords another |
| `RedisScript.RefillExact` | internal/infra/ratelimit/redis.go:37-38 | The script's fractional refill, capped, is the integer model's refill divided by the restoration period |
| `RedisScript.RetryExactly` | internal/infra/ratelimit/redis.go:54-57 | The ceiling over fractional tokens is the integer ceiling over missing units |
| `RedisScript.RemoveUpToScores` | internal/infra/ratelimit/redis.go:40 | ZREMRANGEBYSCORE leaves exactly the scores the integer model keeps and adds no member |
| `RedisScript.Evaluate` | internal/infra/ratelimit/redis.go:37-66 | The local computation of the script, with fractional tokens, is the function the other theorems speak of |
| `RedisScript.Redis.HybridLimitScript` | internal/infra/ratelimit/redis.go:19-67 | One run of the script, under any rule and on any contents, does to the whole keyspace what `Script` says, both expiries included |
| `RedisScript.ScriptSteps` | internal/infra/ratelimit/redis.go:29-66 | Under a rule of whole milliseconds `Script` is one step of the integer model: same new contents, decision and retry |
| `RedisScript.ScriptRenews` | internal/infra/ratelimit/redis.go:50-52 | Whatever the outcome, both keys expire twice the longer of the two periods after the run |
| `RedisScript.NothingStored` | internal/infra/ratelimit/redis.go:50-52 | A rule with both durations truncated to zero leaves neither key stored |
| `RedisScript.ScriptElsewhere` | internal/infra/ratelimit/redis.go:20-21 | What any other pair of keys holds is unchanged |
| `RedisScript.IdleContents` | internal/infra/ratelimit/redis.go:49-52 | Untouched since a run of the script, the keyspace shows an identity's two keys unchanged until their time to live is over, and then as a fresh identity |
| `KeyspaceRuns.RunTracks` | internal/infra/ratelimit/redis.go:29-52 | After any run of calls of many identities with expiry, each key holds exactly what its own calls alone lead to |
| `KeyspaceRuns.RunDecides` | internal/infra/ratelimit/redis.go:29-66 | Every call of such a run is answered, decision and retry, as if its key were kept forever and no other identity existed, though callers' clocks may fall behind the server's by as much as the longer period between two calls |
| `KeyspaceRuns.SharedClockOrderly` | internal/infra/ratelimit/redis.go:134-138 | The condition of the run theorems holds of every run with one clock that never goes back and members never drawn twice |
| `KeyspaceRuns.KeyBounds` | internal/infra/ratelimit/redis.go:29-49 | In such a run the allowed calls on each key obey both its bucket bound and its window bound |
| `KeyspaceRuns.RetryHolds` | internal/infra/ratelimit/redis.go:54-66 | In such a run, after a denied call with no other call of the key allowed in between, a later one is allowed if and only if the retry has passed |
| `RedisLimiter.IdentityKeyInjective` | internal/infra/ratelimit/redis.go:166-170 | With an injective digest, two calls share a key if and only if operation, dimension and identity all agree, even when they contain colons or zero characters |
| `RedisLimiter.TrimSpaceDropsEnds` | internal/infra/ratelimit/redis.go:126-128 | Trimming removes only white space, and only from the two ends |
| `RedisLimiter.SpaceCodes` | internal/infra/ratelimit/redis.go:126-128 | White space by its code points |
| `RedisLimiter.BucketDisabled` | internal/infra/ratelimit/redis.go:145 | Of the rules the validation accepts, those with a restoration period under a millisecond, and no others, have the window alone decide for every contents |
| `RedisLimiter.WindowDisabled` | internal/infra/ratelimit/redis.go:146 | Of the rules the validation accepts, those with a window under a millisecond, and no others, have the bucket alone decide on clocks that do not go back; for all others some log denies a call that finds a full bucket |
| `RedisLimiter.RedisLimiter.Allow` | internal/infra/ratelimit/redis.go:116-164 | For every rule, including the invalid, and every fault: the result, which key strings the script runs on, with which arguments, and the whole new keyspace, a lost reply charging like a delivered one |
| `AttemptGuards.SameKeySameRule` | internal/infra/authentication/attempt_guards.go:104-158 | Any two charges of the guards or the HTTP limiter with the same operation and dimension meet the same rule |
| `AttemptGuards.WhoIsCharged` | internal/infra/authentication/attempt_guards.go:108-126 | An attempt is charged for its address, or for unknown, and then for its email, or for the account of a password attempt without one, under its guard's operation name |
| `AttemptGuards.AddressLimits` | internal/infra/authentication/attempt_guards.go:128-137 | The limits of each guard and operation per address, in numbers |
| `AttemptGuards.IdentityLimits` | internal/infra/authentication/attempt_guards.go:139-144 | The limits of each guard and operation per email and account, in numbers |
| `AttemptGuards.RequestCharge` | internal/authentication/handlers/rate_limit.go:33-46 | The operation, identity and limits of GET and other requests, in numbers |
| `GuardRuns.ChargeJudged` | internal/infra/authentication/attempt_guards.go:146-158 | A delivered charge advances its check if the script admitted it and blocks it if not; any other charge is a fault |
| `GuardRuns.CallsMeetRule` | internal/infra/ratelimit/redis.go:166-170 | All script runs on one key string in a run of the guards were made for one identity and under one rule, if its digests do not collide |
| `GuardRuns.ChargeDecides` | internal/infra/authentication/attempt_guards.go:146-158 | In every interleaving a delivered charge ends or advances its check as the earlier calls on its own key alone decide |
| `GuardRuns.RunCounts` | internal/infra/authentication/attempt_guards.go:104-126 | No more checks are admitted on a key than script runs on it were allowed |
| `GuardRuns.PerIdentityBounds` | internal/infra/authentication/attempt_guards.go:104-249 | In every interleaving of single charges of any number of checks and HTTP requests, with lost replies and unsent scripts, any set of them that passed with a charge for one email, account or address in an interval obeys that identity's bucket and window bounds |
| `GuardRuns.AddressDenialStops` | internal/infra/authentication/attempt_guards.go:109-117 | Once a check is denied no later step of the run charges for it |
| `GuardRuns.ChargeElsewhere` | internal/infra/ratelimit/redis.go:20-21 | A charge of any outcome changes what Redis holds for its own key only |
| `GuardChecks.AttemptGuard.SameKeyString` | internal/infra/ratelimit/redis.go:126-133 | A guard's charge reaches the key string the run model gives it |
| `GuardChecks.AttemptGuard.Charge` | internal/infra/authentication/attempt_guards.go:146-158 | Passes exactly when the script admitted the charge and the reply arrived, is blocked exactly when it denied it, and passes every other error on; the whole new keyspace |
| `GuardChecks.AttemptGuard.FlowPhase` | internal/infra/authentication/attempt_guards.go:104-126 | The run model's flow of the same two charges passes, blocks or fails in exactly those cases |
| `GuardChecks.AttemptGuard.Check` | internal/infra/authentication/attempt_guards.go:104-126 | The verdict in every branch, with other callers' scripts between the two charges, equal to that of the run model's flow, and the whole new keyspace: address first, then email or account only if the address passed |
| `GuardChecks.AdvertisedWait` | internal/authentication/handlers/rate_limit.go:47-49 | `Retry-After` is positive, and after `k` whole seconds the key admits a request if and only if `k` has reached it |
| `GuardChecks.AdvertisedWaitHolds` | internal/authentication/handlers/rate_limit.go:47-49 | The same over the keyspace all callers share |
| `GuardChecks.RateLimitRequest` | internal/authentication/handlers/rate_limit.go:31-73 | The charge made and the response: refused exactly when the limiter answered with a denial, with that wait; an unavailable limiter lets the request through |
| `Sessions.KeepsExactly` | internal/infra/authentication/session_store.go:118-129 | The revocation leaves the first `k` active sessions of the ranking and changes no other row |
| `Sessions.RankedColumns` | internal/infra/authentication/session_store.go:121-126 | Ranked are exactly the subject's rows that are unrevoked and expire later than the creation time |
| `Sessions.FewAreKept` | internal/infra/authentication/session_store.go:118-129 | With at most the maximum of such rows nothing is revoked |
| `Sessions.RevokesByColumns` | internal/infra/authentication/session_store.go:118-129 | With unique identifiers a row is revoked, at the creation time, exactly when it is such a row and at least the maximum of them come before it by (created_at, id) descending; every other row is unchanged |
| `Sessions.KeepsNewest` | internal/infra/authentication/session_store.go:121-128 | No session it keeps is older, by (created_at, id), than one it revokes |
| `Sessions.KeepsStrictlyLatest` | internal/infra/authentication/session_store.go:121-128 | A new active session with the strictly latest creation time is kept |
| `Sessions.KeepsOwn` | internal/infra/authentication/session_store.go:118-129 | With distinct identifiers, a creation leaves its own active session active if and only if fewer than the maximum of the subject's active sessions rank before it |
| `Sessions.OvertakenCreation` | internal/infra/authentication/session_store.go:89-152 | A run in which a creation begins, a newer one takes the lock and commits before it, and the first then commits with its own session revoked |
| `Sessions.TrimmedCap` | internal/infra/authentication/session_store.go:118-129 | After the revocation the subject is within the cap at every later instant |
| `Sessions.SessionCap` | internal/infra/authentication/session_store.go:79-164 | In every statement-level interleaving of any number of creations, with aborts and deactivations, from any table: a subject has at most the maximum of active sessions at every instant from its latest commit's creation time on |
| `Sessions.CommitKeeps` | internal/infra/authentication/session_store.go:150-152 | A commit keeps the lock, freshness, readiness and cap invariants for every subject and every other open transaction |
| `SessionStore.PostgresSessionStore.ReadRevoked` | internal/infra/authentication/session_store.go:133-148 | The scan loop returns the revoked tokens in order, or fails the call at the first unreadable row |
| `SessionStore.PostgresSessionStore.Invalidate` | internal/infra/authentication/session_store.go:154-162 | Deletion is attempted for exactly the revoked tokens; the ones that fail stay, and nothing else leaves the cache |
| `SessionStore.PostgresSessionStore.Create` | internal/infra/authentication/session_store.go:79-164 | When the call succeeds and which error it reports; what it commits over what others left between its statements, column by column: the row inserted, exactly the surplus revoked and nothing else, expired rows untouched, nothing revoked below the maximum, the cap reached; every failure but a lost commit reply leaves the table to the others, and every failure the cache untouched |
| `SessionCache.JitterRange` | internal/infra/authentication/session_cache.go:50-62 | Jitter cuts the drawn whole percentage of 0 to 10, rounded down, so it yields a lifetime in `[ttl - ttl/10, ttl]` and attains both ends; a non-positive lifetime or a failed draw is left alone |
| `SessionCache.StaleHitsAreBounded` | internal/infra/authentication/session_cache.go:35-62 | With deletions failing at will, a stale hit was read before every revocation of its session, there was one since, and it was set less than its requested lifetime ago |
| `VerificationStore.RedisEmailVerificationStore.Issue` | internal/infra/authentication/email_verification_store.go:96-128 | The new Redis contents, key by key with values and deadlines, and the outcome in every case, replies lost after the script ran included |
| `VerificationStore.LiveColumns` | internal/infra/authentication/email_verification_store.go:22-31 | A key is shown up to and including its deadline, with the value it was given |
| `VerificationStore.IssueIsAtomic` | internal/infra/authentication/email_verification_store.go:20-33 | An issue whose expiry lies ahead stores its challenge or leaves Redis as it was, if and only if its lifetime is at least a millisecond, or its token is taken, or the user has no live challenge |
| `VerificationStore.ShortLifetimeLosesChallenge` | internal/infra/authentication/email_verification_store.go:100-119 | A concrete issue, half a millisecond before its expiry, that is refused and deletes the user's live challenge |
| `VerificationStore.RedisEmailVerificationStore.Verify` | internal/infra/authentication/email_verification_store.go:130-188 | Whenever GETDEL ran, its reply received or lost, the proof is gone, and which error follows; success exactly for a challenge in time whose account exists unverified with an email of the hash at issue; that account alone changes, also when the reply of the update is lost |
| `VerificationRuns.OneLiveChallenge` | internal/infra/authentication/email_verification_store.go:20-40 | In every interleaving each live proof is the one its user's owner key names, with the same expiry, so no user has two |
| `VerificationRuns.ClearKeeps` | internal/infra/authentication/email_verification_store.go:148-153 | A late or lost cleanup never deletes the owner key of a live challenge |
| `VerificationRuns.VerificationSoundness` | internal/infra/authentication/email_verification_store.go:130-188 | A success consumed alone the challenge that was its user's latest at the GETDEL, before its expiry, with the email of the issue at the UPDATE, and flips exactly that account |
| `VerificationLife.UndisturbedVerification` | internal/infra/authentication/email_verification_store.go:130-188 | Left alone, the steps of a verification reach success in exactly those cases, with the same accounts and Redis contents |
| `VerificationLife.ChallengeStays` | internal/infra/authentication/email_verification_store.go:30-31 | In every interleaving a challenge issued with a lifetime of a millisecond or more is live at every instant up to its deadline, unless it was consumed or replaced |
| `VerificationRuns.FateIsFinal` | internal/infra/authentication/email_verification_store.go:20-33 | Each stored challenge is in exactly one of live, consumed, displaced and expired, and between any two moments of a run none that left the live set comes back or changes its fate |
| `VerificationRuns.SingleUse` | internal/infra/authentication/email_verification_store.go:136-142 | No two GETDELs of a run find the same challenge, even when the first verification failed after its own |
| `VerificationRuns.OneSuccessPerUser` | internal/infra/authentication/email_verification_store.go:175-186 | In a run where nothing resets verified accounts no user has two successful verifications |
| `UserResolution.CommitKeeps` | internal/users/repositories/generated/users.sql.go:28-42 | Committing an insert keeps subjects unique and every other caller's snapshot, pending insert and answer sound |
| `UserResolution.UserRepository.InsertOrSelect` | internal/users/repositories/generated/users.sql.go:28-42 | The statement yields the row its snapshot held or else its own insert, and nothing exactly when a row its snapshot lacked was committed first; it adds at most its own row |
| `UserResolution.GetOrCreateAgreement` | internal/users/repositories/user.repository.go:22-63 | In every interleaving at most one row per subject exists, all callers that returned for it returned that row, and the read after an empty conflict result always finds it |
| `UserResolution.UserRepository.ResolveUserByAuthlierSubjectID` | internal/users/repositories/user.repository.go:22-63 | With no fault the call returns the subject's one row, whoever commits in between, and its own if nobody else does; an established user costs no write; which fault gives which error |
| `Migrations.MigratedDatabase.Up002` | internal/infra/database/migrations/002_organization_lifecycle.sql:1-30 | Succeeds exactly on databases where every organization has an owner and every role is owner or developer; then the data and constraints are as stated, otherwise nothing changes |
| `Migrations.MigratedDatabase.Down002` | internal/infra/database/migrations/002_organization_lifecycle.sql:34-59 | Always succeeds and restores version 001's constraints |
| `Migrations.MigratedDatabase.Up003` | internal/infra/database/migrations/003_organization_roles.sql:1-51 | Succeeds exactly when no two derived role identifiers collide; then every organization has its two built-in roles and every membership the one its text named |
| `Migrations.MigratedDatabase.Down003` | internal/infra/database/migrations/003_organization_roles.sql:55-69 | Always succeeds and restores version 002's constraints |
| `Migrations.JoinsBuiltIn` | internal/infra/database/migrations/003_organization_roles.sql:37-44 | The join that fills role_id finds each membership one role: the built-in one of its own organization |
| `Migrations.UniqueIndexes` | internal/infra/database/migrations/003_organization_roles.sql:16-33 | Both unique indexes hold of the rows inserted |
| `Migrations.RolesReferenced` | internal/infra/database/migrations/003_organization_roles.sql:46-50 | The composite foreign key holds of the memberships filled |
| `Migrations.Up003Meets` | internal/infra/database/migrations/003_organization_roles.sql:1-51 | All of version 003's constraints hold after the migration |
| `Migrations.RolesRoundTrip` | internal/infra/database/migrations/003_organization_roles.sql:1-69 | Down after up is the identity on every database version 002 allows |
| `Migrations.OwnersRoundTrip` | internal/infra/database/migrations/002_organization_lifecycle.sql:1-59 | Down after up restores the database if and only if no organization had two owners |
| `Migrations.TwoOwnersLost` | internal/infra/database/migrations/002_organization_lifecycle.sql:4-8 | A concrete database with two owners that version 001 allows, the migration accepts and the way back does not restore |
| `Migrations.UpgradableColumns` | internal/infra/database/migrations/002_organization_lifecycle.sql:4-26 | What 002 asks of a database: an owner membership in every organization, and no role but owner and developer |
| `Migrations.DigestsColumns` | internal/infra/database/migrations/003_organization_roles.sql:26-32 | What 003 asks of the digest: no two of its inputs collide |
| `Migrations.Up002Example` | internal/infra/database/migrations/002_organization_lifecycle.sql:4-22 | An organization with an owner and a developer through 002, in full |
| `Migrations.Up003Example` | internal/infra/database/migrations/003_organization_roles.sql:26-50 | The same through 003, in full |
| `Migrations.Down003Example` | internal/infra/database/migrations/003_organization_roles.sql:58-69 | Back through 003: a custom role comes down to developer |
| `Migrations.Down002Example` | internal/infra/database/migrations/002_organization_lifecycle.sql:34-59 | Back through 002: the owner gets the owner role whatever role it had, everybody else becomes developer, and lifecycle data is gone |
| `Migrations.BlankNames` | internal/infra/database/migrations/003_organization_roles.sql:10 | A name is blank exactly when it consists of spaces |
| `Migrations.CaseExample` | internal/infra/database/migrations/003_organization_roles.sql:22-24 | Role names are compared without regard to case |
| `Migrations.MigrationRoundTrip` | internal/infra/database/migrations/003_organization_roles.sql:1-69 | Up through 002 and 003 and back establishes the foreign key and indexes and restores everything if and only if no organization had two owners |
| `AccessQuery.SelectedIsGranted` | internal/organizations/repositories/generated/organizations.sql.go:173-183 | Under the declared keys a row of the three-way join is selected exactly for a granted membership, and determined by it |
| `AccessQuery.AnswerIsAccessList` | internal/organizations/repositories/generated/organizations.sql.go:164-185 | Any answer to the query is one entry per active, unremoved membership of a live organization and role, sorted by (created_at, id) |
| `AccessQuery.AccessListColumns` | internal/organizations/repositories/generated/organizations.sql.go:164-185 | The list by its columns: who is in it, what each entry says, and its order by (created_at, id) ascending |
| `AccessQuery.AccessListIsAnswer` | internal/organizations/repositories/generated/organizations.sql.go:164-185 | Conversely the sorted filter is an answer to the query |
| `AccessQuery.AccessListUnique` | internal/organizations/repositories/generated/organizations.sql.go:184 | The order leaves the database one answer only |
| `AccessQuery.AccessListExists` | internal/organizations/repositories/generated/organizations.sql.go:164-185 | Every database has an access list for every user |
| `AccessQuery.AnswerExists` | internal/organizations/repositories/generated/organizations.sql.go:164-185 | Under the declared keys the query always has an answer |
| `AccessQuery.UpgradeKeepsAccess` | internal/infra/database/migrations/003_organization_roles.sql:37-44 | Through migrations 002 and 003 exactly the active memberships have access; former owners appear as Admins, and only they can carry the owner flag |
| `OrganizationCreation.InsertOrganizationExact` | internal/organizations/repositories/generated/organizations.sql.go:15-19 | The insert is accepted exactly when its key is free and the schema's constraints hold with the new row |
| `OrganizationCreation.InsertRoleExact` | internal/organizations/repositories/generated/organizations.sql.go:82-86 | The same for a role, including both unique indexes |
| `OrganizationCreation.InsertMembershipExact` | internal/organizations/repositories/generated/organizations.sql.go:49-53 | The same for a membership, including the composite foreign key |
| `OrganizationCreation.CreationKeeps` | internal/organizations/repositories/organization.repository.go:26-78 | A committed creation keeps every constraint of the schema, for any organization, roles and membership given |
| `OrganizationCreation.CreationColumns` | internal/organizations/repositories/organization.repository.go:26-78 | A committed creation adds the organization, its roles and the membership, by their columns, and nothing else |
| `OrganizationCreation.ServiceCreationExact` | internal/organizations/services/organization_management.service.go:56-93 | The service's creation commits exactly when its identifiers are new and distinct, its owner exists and its name is not blank, and then adds the four rows |
| `OrganizationCreation.OwnerGainsOneEntry` | internal/organizations/services/organization_management.service.go:85-92 | After a committed creation the owner's listing exists and is the previous one with a single owner-flagged Admin entry inserted, at the end if it is newer than every other organization |
| `OrganizationCreation.OthersKeepTheirList` | internal/organizations/services/organization_management.service.go:85-92 | Everybody else's listing is unchanged |
| `OrganizationStore.OrganizationRepository.CreateOrganizationWithOwner` | internal/organizations/repositories/organization.repository.go:26-78 | Commits exactly when every round trip and insert succeeds, with all rows, and reports it unless the reply is lost; otherwise the database is as it was |
| `OrganizationStore.OrganizationRepository.ListActiveOrganizationAccessByUser` | internal/organizations/repositories/generated/organizations.sql.go:196-221 | The scan loop returns the access list, oldest organization first, and fails exactly when the query, a scan or the iteration does |
| `OrganizationStore.OrganizationManagementService.CreateOrganization` | internal/organizations/services/organization_management.service.go:37-93 | Exactly when the service succeeds, with which rows, which error it reports, and what the database then holds; otherwise nothing changes |

## Left out

Modelling assumptions:

- Floating point: Lua doubles and Redis number formatting are replaced by exact reals in the script and integers in the
  model; rounding is not modelled. Go's 64-bit integers are unbounded, which matters only for jitter on lifetimes above 29 years.
- Clock skew: the rate, retry, inertness and expiry theorems need clock readings that do not go back on a key, and those with
  expiry need the callers' clocks not to fall behind the server's by more than the longer period; `StateBounds` and
  `UnorderedBound` need neither.
- Randomness and digests: window members, token hashes and identifiers are taken as new where drawn; HMAC is taken as injective
  only in the lemmas that say so, and MD5 is any function `digest` whose collisions are exactly what makes migration 003 fail.
- A sorted set lists equal scores by member; no result depends on that order, so the log is kept in insertion order.
- Rows are modelled by the columns the code decides on; a user row has its identifier and subject, not its creation time.
- Authlier's operation names are not in this repository; they are assumed distinct and free of outer white space.
- Case folding of role names is ASCII, and `length(btrim(name)) > 0` is the existence of a character other than a space.

Weaker than the code could bear:

- GuardRuns.PerIdentityBounds: an HTTP request let through because the limiter was unavailable does not count as passed; no bound holds of those.
- Sessions.SessionCap: `Create` is the only step that adds or extends sessions; `Rotate` and `Extend` bypass the advisory lock and are not part of this model.
- Migrations.MigratedDatabase.Up002: the joined owner row that PostgreSQL picks is a parameter, any of the organization's owners.

Not modelled:

- The authentication library's internals (hashing, one-time codes, cookies, rotation, extension) and singleflight coalescing of lookups.
- Migrations 001 and 004 (tables, renames, indexes), projects and their environments, and the single-row reads.
- JSON, HMAC, SHA-256, UUID and header encodings; HTTP routing and response bodies.
- Telemetry, logging, CORS, configuration, health checks, server lifecycle, mail delivery, and the OpenAPI document.
- Password policy, request identifiers and similar checks of a single branch.
