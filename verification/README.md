# Verified model of the license management API's services

The license management API is a Go web service. Behind its handlers sit several state
machines with clocks, counters, caches and retries. This project models them in Dafny and
proves what every run of them keeps.

| Dafny module | what it models |
|---|---|
| `Basics`, `Text`, `Redis` | optional values; the Go string functions used; keys with values and expiry instants |
| `EnhancedRateLimiter` | the Redis rate limiter and its middleware, as a class over a Redis client |
| `AdmissionBound` | how many requests the middleware admits, per counter and in the long run |
| `LockMonotonicity` | gradual backoff never shortens a lock: exactly when |
| `LimiterAnswers` | what a refusal, Retry-After and the attempts left mean |
| `MemoryRateLimiter` | the in-memory limiter, its entries and its cleanup pass |
| `CleanupInvisible` | the cleanup pass is not observable: exactly when |
| `LockoutHistory` | the in-memory limiter refines a specification over the recorded logins |
| `BulkRevoke` | synchronous bulk revocation, the retry loop, and their outcomes under database faults |
| `BulkJobs` | workers, cancels and several jobs as a transition system, and the worker's code |
| `RevocationRaces` | do the counts of concurrent jobs add up to the licenses revoked: exactly when |
| `NotificationQueue`, `TemplateRendering` | the bounded e-mail queue; `{{key}}` substitution |
| `LicenseListCache` | GET /licenses behind its cache, with all single-license writers |
| `PermissionCache`, `SessionCache` | permission checks behind their cache; sessions and their limit of five |
| `TokenRotation` | refresh-token rotation, the revocation list and the `exp` claim |
| `UsageAnalytics`, `AuditCsv`, `HumanDuration` | the top-ten users, the CSV export, the duration parser |

Conventions. Times and durations are integers, in nanoseconds unless a name says otherwise, and
every operation takes the clock reading as a parameter. Code that changes state is a class; its
methods are proved equal to functions of the old state, and the theorems over runs are about
those functions; some keep the run itself as ghost state. Handlers, and single Redis calls, are
atomic; the goroutines of bulk jobs are interleaved in steps, a read of the database and the write
that follows it apart. Faults of the database and of e-mail delivery are parameters.
`{:induction false}` stands on lemmas that Dafny is not to try by induction on its own.

Several statements are equivalences because the obvious stronger claim fails:

* Failures, questions and successes never shorten a lock if and only if backoff is off, or its
  multiplier is at most 1, or the longest extra lock, `lockout * (cap - 1)`, is at most the 24 hours
  for which violations are remembered. Without a cap it can always be shortened, by 49 volleys at
  most. The middleware's attempts lock without backoff; with them a lock is never shortened if and
  only if none is longer than the plain one.
* The in-memory limiter refines its history specification if and only if `maxAttempts >= 2` or the
  lockout is not positive.
* The cleanup pass cannot be observed if and only if `maxAttempts >= 2` or the lockout is not
  positive: the first failure of a new entry never locks, the first failure on an old one may.
* A rotated refresh token is never accepted again if and only if refresh tokens live at most seven
  days and a revocation service is present (or tokens are never valid at all).
* A job with three attempts per item has the outcomes of a fault-free synchronous run if and only
  if every item that should succeed has an attempt that no fault hits.
* A finished job is failed if and only if some cancel landed after the start step with an item
  still unchecked. A cancel made while the job is pending, or during its last item, is overwritten.
* A bulk revocation, which invalidates no cached list, leaves the lists right if and only if no list
  that is cached shows a license it is going to revoke.
* Five sessions are the limit if and only if every session is cached under its own SessionID.
* The order in which a template's variables are replaced is irrelevant, for keys without braces and
  templates with opening braces in placeholders only, if and only if no placeholder of a key can be
  pieced together from the values of other keys and text without opening braces (unless the key
  stands for its own placeholder). The values `{{` and `}}` are enough to break it.
* Concurrent bulk jobs count exactly the licenses they revoke if and only if no two of them list a
  license that can be revoked: one may write back what another has revoked since it was read.
* The audit export can be read back if and only if the fields it does not quote hold nothing that
  CSV gives a meaning to.
* A rotation keeps a login alive if and only if the new token differs from the old one and has not
  been rotated or revoked for another login of the week. A token rotated within the second of its
  issue (and of its expiry) is returned unchanged and put on the revocation list.
* A permission-cache event keeps the cache right if and only if it is harmless in a sense spelled
  out: a failing user list caches an empty permission list, and resetting a role, or changing the
  role of a user, leaves cached lists as they were.
* "5 unit" and "5unit" parse alike if and only if the unit is not spelled with the micro sign.
* Logout from other devices panics if and only if one of the user's live keys is shorter than the
  token that is to be kept.

Where documentation and code disagree the code is followed: docs/API_REFERENCE.md lists 14
permissions for managers, internal/models/enums.go grants 10.

## Model

| member | source | states |
|---|---|---|
| EnhancedRateLimiter.KeysDistinct | internal/middleware/rate_limit_enhanced.go:134-136 | the three Redis keys of an IP differ from each other and from every key of another IP |
| EnhancedRateLimiter.ViewOfPutView | internal/middleware/rate_limit_enhanced.go:133-211 | an operation on one IP is read back by that IP and unseen by all others |
| EnhancedRateLimiter.EnhancedRedisRateLimiter.IsAllowed | internal/middleware/rate_limit_enhanced.go:99-130 | whitelisted IPs always pass; others are refused exactly while a stored instant lies ahead; expired locks are deleted; metrics and timings follow |
| EnhancedRateLimiter.EnhancedRedisRateLimiter.BackoffMultiplier | internal/middleware/rate_limit_enhanced.go:163-171 | the loop computes B^(v-1), cut off at the cap when there is one |
| EnhancedRateLimiter.EnhancedRedisRateLimiter.RecordFailure | internal/middleware/rate_limit_enhanced.go:133-182 | the whole new store, the attempts left, the lock and the metrics after a failure |
| EnhancedRateLimiter.EnhancedRedisRateLimiter.RecordAttempt | internal/middleware/rate_limit_enhanced.go:186-211 | counts and locks at the limit, keeping the counter |
| EnhancedRateLimiter.EnhancedRedisRateLimiter.RecordSuccess | internal/middleware/rate_limit_enhanced.go:214-220 | drops the counter and the remembered timing, not the lock |
| EnhancedRateLimiter.EnhancedRedisRateLimiter.RateLimitMiddleware | internal/middleware/rate_limit_enhanced.go:261-282 | a refused request stops with the whole seconds that remain in Retry-After; an admitted one is counted before the handler |
| AdmissionBound.AdmissionBound | internal/middleware/rate_limit_enhanced.go:186-282 | while one attempts counter lives, at most maxAttempts + ceil(resetWindow/lockout) - 1 requests of an IP are admitted (maxAttempts below 1 acts as 1), whatever other IPs do |
| AdmissionBound.AdmissionRate | internal/middleware/rate_limit_enhanced.go:186-282 | any k reset windows admit at most k times that bound |
| AdmissionBound.AdmissionBoundTight | internal/middleware/rate_limit_enhanced.go:186-282 | every configuration has a run from an empty Redis that reaches the bound |
| AdmissionBound.BoundIsLimit | internal/middleware/rate_limit_enhanced.go:204-211 | the bound is maxAttempts exactly when the lockout is at least the reset window |
| AdmissionBound.CeilDivMeaning | internal/middleware/rate_limit_enhanced.go:204-211 | the counting form of the quotient in the bound is the quotient rounded up |
| LockMonotonicity.LocksNeverShortened | internal/middleware/rate_limit_enhanced.go:151-179 | in every run of failures, questions and successes a blocked instant stays blocked, if and only if the configuration is safe |
| LockMonotonicity.MultiplierGrows | internal/middleware/rate_limit_enhanced.go:163-171 | the multiplier is at least 1, never falls with the violation count and respects the cap |
| LockMonotonicity.UnsafeRun | internal/middleware/rate_limit_enhanced.go:157-175 | for every unsafe configuration, a run of at most 49 volleys of failures in which one after 24 hours replaces a longer lock |
| LockMonotonicity.LongEnough | internal/middleware/rate_limit_enhanced.go:163-175 | the least number of earlier violations, 47 at most, that makes a lock outlast 24 hours and a plain lockout; that lock is at most the multiplier times these two together |
| LockMonotonicity.LocksNeverShortenedByAnything | internal/middleware/rate_limit_enhanced.go:186-211 | with the attempts of the middleware among the events, a blocked instant stays blocked in every run, if and only if backoff is off, its multiplier is 1 or its cap is 1 |
| LockMonotonicity.AttemptsShorten | internal/middleware/rate_limit_enhanced.go:186-211 | for every other configuration, a run of two volleys of failures and one of attempts, all at one instant, that shortens a lock |
| LimiterAnswers.RefusalTells | internal/middleware/rate_limit_enhanced.go:99-130 | after any run, a refusal reports a positive remaining time, and asked again with nothing in between the IP is refused exactly until that time has passed |
| LimiterAnswers.RetryAfterTells | internal/middleware/rate_limit_enhanced.go:265-267 | a client that waits for the seconds of Retry-After is admitted if and only if nothing was cut off, and one that waits a second more always |
| LimiterAnswers.AttemptsLeftTell | internal/middleware/rate_limit_enhanced.go:133-182 | with so many attempts left as RecordFailure answers, fewer failures at once leave the lock alone and the last of them sets it |
| LimiterAnswers.SuccessForgets | internal/middleware/rate_limit_enhanced.go:214-220 | after a success the count begins anew, and lock and violations stay |
| LimiterAnswers.WhitelistedIsCounted | internal/middleware/rate_limit_enhanced.go:99-103 | a whitelisted IP is always admitted and counted all the same: taken off the list after a volley it is refused for a lockout |
| MemoryRateLimiter.RateLimiter.IsAllowed | internal/middleware/rate_limit.go:215-237 | the answer, and the deletion of an entry whose lock is over |
| MemoryRateLimiter.RateLimiter.RecordFailure | internal/middleware/rate_limit.go:245-272 | a new entry, or the old one counted, restarted after a gap, and locked at the limit |
| MemoryRateLimiter.RateLimiter.RecordSuccess | internal/middleware/rate_limit.go:239-243 | the entry is gone, all others stay |
| MemoryRateLimiter.RateLimiter.CleanupOldEntries | internal/middleware/rate_limit.go:183-202 | for any visiting order, exactly the stale entries are dropped |
| CleanupInvisible.CleanupIsInvisible | internal/middleware/rate_limit.go:183-272 | cleanup passes anywhere change no answer of any run, if and only if maxAttempts >= 2 or the lockout is not positive |
| CleanupInvisible.RunRelated | internal/middleware/rate_limit.go:183-272 | the simulation behind it: tables that differ in stale entries and old locks answer alike for ever |
| CleanupInvisible.TellingRun | internal/middleware/rate_limit.go:250-272 | otherwise, a run whose answer shows whether a pass has run |
| LockoutHistory.LimiterRefinesHistory | internal/middleware/rate_limit.go:183-272 | for every run in which the logins of an IP follow one another, with other IPs and cleanup passes anywhere, also between ask and record: the IP is refused at t exactly when a recorded failure less than a lockout ago ended a chain of maxAttempts failures, gaps within the window, without success or earlier lockout inside; if and only if maxAttempts >= 2 or the lockout is not positive |
| LockoutHistory.FirstFailureForgiven | internal/middleware/rate_limit.go:250-257 | otherwise, one failed login that should lock by itself and does not |
| LockoutHistory.LockoutIsFullChain | internal/middleware/rate_limit.go:261-271 | the declarative lockouts are where the running count reaches the limit |
| BulkRevoke.BulkRevokeLicenses | internal/service/bulk_operation_service.go:54-116 | validation error on an empty list; otherwise store and report are those of processing the list in order |
| BulkRevoke.ProcessLicenseRevocationWithRetry | internal/service/bulk_operation_service.go:212-272 | up to three attempts, stopping at the first that is not an error; sleeps of 100 and 200 ms |
| BulkRevoke.RetryMeaning | internal/service/bulk_operation_service.go:212-272 | an item succeeds exactly when it is revocable and some attempt meets no fault; only then does its license change, and it gets the clock reading of the first such attempt |
| BulkRevoke.TallyMeaning | internal/service/bulk_operation_service.go:59-113 | counts add up to the items processed; FailedIDs are the ids at the failed positions |
| BulkRevoke.FailedPositionsMeaning | internal/service/bulk_operation_service.go:59-113 | those positions are all the failures, in list order |
| BulkRevoke.RetriesMatchFaultFree | internal/service/bulk_operation_service.go:54-116 | retried and fault-free outcomes agree if and only if each item due to succeed has a working attempt; then counts, FailedIDs and revoked licenses agree, duplicates included |
| BulkJobs.BulkRevokeLicensesAsync | internal/service/bulk_operation_service.go:120-156 | validation error on an empty list; otherwise a fresh pending job |
| BulkJobs.JobBooksInOrder | internal/service/bulk_operation_service.go:159-209 | under every interleaving, Success + Failure = Processed <= Total and FailedIDs come in order from the first Processed ids |
| BulkJobs.CancelTheorem | internal/service/bulk_operation_service.go:159-209 | a job whose worker is gone is failed if and only if a cancel landed with a check ahead |
| BulkJobs.AtMostOneMoreItem | internal/service/bulk_operation_service.go:168-200 | after such a cancel at most one further item is processed, and none if it came at the check |
| BulkJobs.EveryWorkerEnds | internal/service/bulk_operation_service.go:159-272 | a worker is gone after at most 8n + 2 of its own steps, reads and writes counted apart |
| RevocationRaces.SuccessesAreRevocations | internal/service/bulk_operation_service.go:159-272 | over any number of jobs whose reads and writes interleave, the SuccessCounts sum to the licenses newly revoked plus the overwrites of a license that another job has revoked since it was read; to the former alone if and only if nothing is overwritten |
| RevocationRaces.RevocationsCounted | internal/service/bulk_operation_service.go:159-272 | the same balance at every moment, counting revocations not yet recorded; licenses revoked before the jobs stay as they were |
| RevocationRaces.RevokedWhenWritten | internal/service/bulk_operation_service.go:238-241 | in every run, a license has the clock reading of the last step that wrote it as its revocation time, and is otherwise as it was |
| RevocationRaces.ExactIffNothingShared | internal/service/bulk_operation_service.go:223-241 | the counts are exact at every moment of every run, if and only if no two of the jobs list a license that can be revoked |
| RevocationRaces.TwoJobsOneLicense | internal/service/bulk_operation_service.go:223-241 | two jobs on one license: read, read, write, write gives two successes and one license revoked |
| BulkJobs.BulkJobStatus.CancelJob | internal/service/bulk_operation_service.go:295-311 | an error and no effect on ended jobs, otherwise the status becomes cancelled |
| BulkJobs.ProcessRevokeLicensesAsync | internal/service/bulk_operation_service.go:159-209 | the worker's code ends as its specification says for every pattern of cancels: while pending, before any check, or after the last |
| BulkJobs.SoloRun | internal/service/bulk_operation_service.go:159-272 | that specification is a run of the transition system, overwritten cancels included |
| BulkJobs.UncancelledJobMatchesSync | internal/service/bulk_operation_service.go:54-272 | every run of a single job that ends without an effective cancel completes with the report of its outcomes; these, and the licenses revoked, are those of a fault-free synchronous call, if and only if no license that could be revoked has its last attempt hit |
| NotificationQueue.NotificationQueueService.QueueNotification | internal/service/notification_queue_service.go:63-87 | the error cases, and appending as pending below the limit of 100, also of a notification that is queued already; the service stays that of the recorded run |
| NotificationQueue.NotificationQueueService.ProcessQueue | internal/service/notification_queue_service.go:114-189 | queue, notifications and outbox after a pass are those of the run with this pass added; without an e-mail service nothing changes |
| NotificationQueue.CompactionFilters | internal/service/notification_queue_service.go:179-186 | compacting the objects is filtering their ids |
| NotificationQueue.QueueIsConserved | internal/service/notification_queue_service.go:63-189 | in every run, at most 100 queued; accepted = sent + failed + queued as multisets, repetitions included; what is queued stands in the order of acceptance |
| NotificationQueue.NotificationFate | internal/service/notification_queue_service.go:114-189 | in every run, for the attempts since a notification was last accepted, repeated queue positions and earlier deliveries counted: sent, by exactly one more delivery, if and only if one of the attempts it gets (three when accepted with no retries on record) succeeds; failed if and only if they are used up; gone after them |
| NotificationQueue.NoEarlierDelivery | internal/service/notification_queue_service.go:63-189 | a notification that is submitted once has no earlier deliveries, so that it is delivered at most once |
| NotificationQueue.ServiceIsConserved | internal/service/notification_queue_service.go:63-189 | the same of a service object: its queue is what was accepted and has neither been sent nor failed, and its outbox holds a notification as often as the attempts say |
| TemplateRendering.RenderTemplate | internal/service/notification_queue_service.go:285-293 | some order of the keys; for templates without stray opening braces and independent values, the simultaneous substitution |
| TemplateRendering.AnyOrderFills | internal/service/notification_queue_service.go:285-293 | so for values without opening braces; unbound placeholders are left alone |
| TemplateRendering.ReplaceFillsOne | internal/service/notification_queue_service.go:287-291 | one replacement fills all holes of its key and touches nothing else, unless the values in place piece its placeholder together |
| TemplateRendering.OrderIrrelevantIffIndependent | internal/service/notification_queue_service.go:285-293 | for any values, and keys without braces: every order gives the simultaneous substitution on every template without stray opening braces, if and only if no placeholder of a key (unless it stands for itself) can be pieced together from values of other keys and such text |
| TemplateRendering.StrayBracesMatter | internal/service/notification_queue_service.go:285-293 | values {{ and }} with another variable are enough to make the order matter |
| TemplateRendering.ReplaceLeavesAlone | internal/service/notification_queue_service.go:287-291 | a replacement leaves a text as it is if and only if the placeholder does not occur in it or stands for itself |
| LicenseListCache.CacheIsTransparent | internal/handler/license_handler.go:96-208 | after any run of requests and writes, total and page equal those computed from the table, for users and admins |
| LicenseListCache.ActCoherent | internal/cache/license_cache.go:112-118 | invalidating the owner's and the admin's key keeps every cached list right about whom it is for |
| LicenseListCache.CacheKeysDistinct | internal/cache/license_cache.go:44-49 | cache keys of different users and of admins differ |
| LicenseListCache.StatusAlwaysAgrees | internal/handler/license_handler.go:660-750 | the single-license handlers keep status Revoked and RevokedAt in step over every run |
| LicenseListCache.FilterMembers | internal/handler/license_handler.go:114-145 | the filter keeps exactly the rows to be shown, and for a user only own rows |
| LicenseListCache.FilterTells | internal/handler/license_handler.go:114-145 | rows are shown as often as they are in the list; status and search ignore case, the search finds the text at any position, and asking for another user shows none |
| LicenseListCache.PagesInOrder | internal/handler/license_handler.go:203-210 | the answers for pages 1 to n, one after another, are the first n times the page size rows of the filtered and sorted list, so that every row is on one page |
| LicenseListCache.ServedWhileFresh | internal/cache/license_cache.go:52-92 | after a miss the same caller is served without the database for the time to live, and not longer |
| LicenseListCache.LicenseAsLastWritten | internal/handler/license_handler.go:562-758 | after any run, a license has the expiry of its last successful renewal, or of its creation, and the status and revocation time of its last successful change; nothing done to one license changes another |
| LicenseListCache.OutcomeTells | internal/handler/license_handler.go:562-758 | Ok exactly when the change is made; when the other answers are given; a refused change changes nothing |
| LicenseListCache.ActivationTells | internal/service/license_service.go:72-81 | after any run, an activation is a conflict exactly if the license has passed the expiry it was last given, or is revoked by the last change of its status, or has a negative limit |
| LicenseListCache.DeactivationTells | internal/service/license_service.go:137-159 | not found exactly without the license or the machine's activation |
| LicenseListCache.RowsRevoked | internal/service/bulk_operation_service.go:68-96 | a bulk revocation changes a row exactly if it is not revoked and is the one that some listed id finds while the database does not fail; it sets the clock reading of the first such attempt as the revocation time, and nothing else |
| LicenseListCache.BulkRevokeCoherent | internal/handler/license_handler.go:942-975 | a bulk revocation leaves the cached lists right if and only if every row it is going to change lies beyond the 10000 cached, or neither the admins' list nor its owner's is cached |
| LicenseListCache.BulkRevokeSeenBy | internal/handler/license_handler.go:942-975 | a caller's unsorted answers are then right on every page if and only if the caller's list is not live in the cache or holds no row that is going to change; and then so are the answers in every sorting |
| LicenseListCache.LicenseHandler.BulkRevokeLicenses | internal/handler/license_handler.go:942-975 | the refusals, the rows after all attempts, and the cache left alone |
| LicenseListCache.LicenseHandler.GetLicenses | internal/handler/license_handler.go:64-208 | on a coherent cache the answer is the one from the table |
| LicenseListCache.LicenseHandler.CreateLicense | internal/handler/license_handler.go:415-436 | the new row, the invalidation and the failure case |
| LicenseListCache.LicenseHandler.AlterLicense | internal/handler/license_handler.go:562-758 | the outcomes of renew, revoke and status change in the order the code checks, with the row changed and the keys invalidated |
| LicenseListCache.LicenseHandler.ActivateLicense | internal/handler/license_handler.go:467-486 | not found, conflict, database failure or success; the owner's and the admins' keys go exactly if the license can be read once more |
| LicenseListCache.LicenseHandler.DeactivateLicense | internal/handler/license_handler.go:526-547 | the same for deactivation, with the machine's activation looked up |
| PermissionCache.CacheIsTransparent | internal/service/permission_service.go:62-143 | from the start, or from any SetRolePermissions whatever came before, every check answers from the current tables, role changes of users who are not cached included; right after the setting everyone with the role has the new list |
| PermissionCache.CoherentIffHarmless | internal/service/permission_service.go:132-222 | each event keeps the cache right if and only if it is harmless; a change of a user's role is so if the user is not cached, is beyond the users fetched, or gets a role that grants the same |
| PermissionCache.RolesAsLastSet | internal/service/permission_service.go:132-174 | after any run, a role grants what it was last set to, or its default if it was reset since or never set |
| PermissionCache.DefaultRolesNested | internal/models/enums.go:62-102 | by default managers may do all that users may, and admins all that managers may, with exactly these permissions; an unknown role grants nothing |
| PermissionCache.DirectMeans | internal/service/permission_service.go:197-222 | the permissions are those of the first user with the id, of a plain user for an unknown one or an empty role, and none without users |
| PermissionCache.PermissionService.HasAnyPermission | internal/service/permission_service.go:62-73 | true exactly when a required permission is in the list in use, for any cache and a failing user list too; on a right cache with a readable list, the list computed directly |
| PermissionCache.PermissionService.HasAllPermissions | internal/service/permission_service.go:76-92 | the same for all required ones |
| PermissionCache.PermissionService.BuildUserPermissions | internal/service/permission_service.go:197-222 | the permissions of the first user with the id, plain user by default, none if the list cannot be read |
| PermissionCache.PermissionService.InvalidateRolePermissionCache | internal/service/permission_service.go:165-174 | the role goes back to its default, cached users stay |
| PermissionCache.PermissionService.UpdateUserRole | internal/handler/user_handler.go:471-513 | the first user with the id gets the role, if there is one and the database accepts; the caches are not told |
| SessionCache.AtMostFiveSessions | internal/service/session_cache_service.go:41-70 | with sessions cached under their SessionIDs, in every run no user has more than five active sessions, and no event touches another user's entries |
| SessionCache.EvictedKey | internal/service/session_cache_service.go:48-61 | an eviction deletes an active session with minimal last activity |
| SessionCache.PatternsAreExact | internal/service/session_cache_service.go:107-118 | the patterns for one user match exactly that user's keys |
| SessionCache.ActiveMeans | internal/service/session_cache_service.go:186-212 | a user's active sessions are those cached for that user, neither revoked nor expired, whose entry lives |
| SessionCache.EndedStaysOut | internal/service/session_cache_service.go:91-182 | in every run, a session that was revoked or invalidated is not listed again until one is cached under its key |
| SessionCache.LogoutElsewhere | internal/service/session_cache_service.go:116-145 | with tokens of one length, logout from the other devices leaves exactly the session of the token to keep, and all of other users |
| SessionCache.RewrittenMeans | internal/service/session_cache_service.go:148-182 | an update changes the activity time of that session and nothing else, a revocation its revocation |
| SessionCache.CapNeedsSessionIds | internal/service/session_cache_service.go:41-70 | for any rule that gives each SessionID its token, every run keeps every user within five active sessions, if and only if the token is always the SessionID |
| SessionCache.CrowdIsRun | internal/service/session_cache_service.go:48-69 | for any other rule, a run of six sessions of one user that are all active |
| SessionCache.SessionCacheService.CacheUserSession | internal/service/session_cache_service.go:41-70 | stores the session, after evicting an idlest one when five are active or seem to be |
| SessionCache.SessionCacheService.GetUserActiveSessions | internal/service/session_cache_service.go:186-212 | lists every active session and nothing else; one whose key SCAN returns again is listed again |
| SessionCache.SessionCacheService.UpdateSessionActivity | internal/service/session_cache_service.go:148-165 | rewrites a cached session with a new activity time, or reports that there is none |
| SessionCache.SessionCacheService.RevokeUserSession | internal/service/session_cache_service.go:168-182 | rewrites a cached session as revoked, or reports that there is none |
| SessionCache.SessionCacheService.InvalidateUserSessions | internal/service/session_cache_service.go:107-112 | removes every live key of the user |
| SessionCache.SessionCacheService.InvalidateUserSessionsExcept | internal/service/session_cache_service.go:116-145 | removes the keys not ending in the token; panics exactly when a key is shorter than it |
| TokenRotation.RotatedTokensNeverReused | internal/handler/auth_handler.go:310-350 | a rotated token is never accepted at any later time, if and only if refresh tokens live at most seven days with a revocation service present |
| TokenRotation.OneLiveTokenPerChain | internal/handler/auth_handler.go:310-350 | of the tokens derived from one login at most the newest is accepted |
| TokenRotation.ChainsHaveOneOwner | internal/service/token_rotation_service.go:40-68 | in every run whose lookups answer for the user of the token, all tokens of a chain are those of the user whose login started it |
| TokenRotation.HandsOut | internal/service/token_rotation_service.go:46-61 | a rotation hands out a token for the user found, with the current email and role and dates cut to seconds |
| TokenRotation.RotationAnswers | internal/handler/auth_handler.go:310-350 | after any run, a rotation is unauthorized exactly if the token was not issued, has expired or was listed within a week, then not found, then forbidden unless active or verified; a refusal changes nothing |
| TokenRotation.AcceptedByEvents | internal/handler/auth_handler.go:310-350 | after any run, a token is accepted if and only if some login or rotation issued it, it has not expired, and it was not rotated or revoked in the last seven days (with a revocation service) |
| TokenRotation.SuccessorAccepted | internal/handler/auth_handler.go:310-350 | after any run, the token a rotation hands out is accepted until it expires, unless it is the token it replaces or was itself rotated or revoked in the last seven days |
| TokenRotation.RotationKeepsSession | internal/handler/auth_handler.go:310-350 | after any run in order, rotating the newest token of a login leaves that login some accepted token at q, if and only if the successor is a different token, has not expired by q, and was not rotated or revoked, for another login, in the seven days before q |
| TokenRotation.ReusedToken | internal/service/token_revocation_service.go:34-44 | for every unsafe configuration, a run in which a rotated token is accepted again |
| TokenRotation.AuthHandler.RotateToken | internal/handler/auth_handler.go:310-355 | the refusals in the order the code makes them; on success the new token is issued and the old one listed |
| TokenRotation.AuthHandler.RevokeToken | internal/service/token_revocation_service.go:34-44 | the list entry lasts to the given instant, or an hour if that has passed |
| UsageAnalytics.TopUsers | internal/service/dashboard_stats_service.go:259-301 | ten or all users with licenses, under their own names, in descending license count; who is not shown has no more licenses than anybody shown, and then ten are |
| UsageAnalytics.CandidatesComplete | internal/service/dashboard_stats_service.go:271-284 | every user with a license is listed with the user's own name, address and counts |
| UsageAnalytics.RevokingCounts | internal/service/dashboard_stats_service.go:259-268 | a revocation takes a license from the current ones of its owner if it was one, and changes no other number |
| UsageAnalytics.SelectTop | internal/service/dashboard_stats_service.go:286-296 | the truncated swap loop permutes the array and puts the largest ten first, in order |
| UsageAnalytics.CountLicenses | internal/service/dashboard_stats_service.go:259-268 | the two maps hold the counts of licenses and of current licenses per user |
| UsageAnalytics.TopTenCountsUnique | internal/service/dashboard_stats_service.go:286-301 | any two such top tens, so also a full sort's, show the same counts |
| AuditCsv.ExportRoundTrip | internal/handler/audit_handler.go:414-458 | a parser for section 2 of RFC 4180 reads back every entry's nine values, newlines in Details as spaces, absent values empty, if and only if no entry has a comma, quote, CR or LF in a field written without quotes |
| AuditCsv.ColumnsAsTitled | internal/handler/audit_handler.go:415-457 | every value of an entry stands under its title |
| AuditCsv.ExportCsv | internal/handler/audit_handler.go:414-458 | the loop writes the header and the rows of that statement, so the equivalence holds of its output |
| AuditCsv.UnplainTells | internal/handler/audit_handler.go:447-457 | an unquoted text with one of these characters is rejected or read as another, whatever is around it |
| AuditCsv.UnquotedSurvivesIffPlain | internal/handler/audit_handler.go:447-457 | an unquoted cell on its own line is read back if and only if it holds no comma, quote, CR or LF |
| AuditCsv.QuotedText | internal/handler/audit_handler.go:436-440 | any text survives the quoting |
| HumanDuration.DurationRoundTrip | internal/config/cache_ttl.go:106-163 | both spellings give the 64-bit product, the true one exactly when it fits; they agree if and only if the unit has no micro sign |
| HumanDuration.TwoWordsMean | internal/config/cache_ttl.go:106-163 | any two words are accepted if and only if the first is a positive number and the second a unit, and mean the 64-bit product |
| HumanDuration.OneWordMeans | internal/config/cache_ttl.go:110-125 | the same of any single word, cut before its first letter; a word without a letter is rejected |
| HumanDuration.ParseIntMeans | internal/config/cache_ttl.go:116 | numbers are decimal digits with an optional sign, in the range of 64 bits, and nothing else |
| HumanDuration.SpelledUnits | internal/config/cache_ttl.go:140-163 | every spelled unit means its length, with a space and without |
| HumanDuration.CasesExclusive | internal/config/cache_ttl.go:143-159 | no unit is selected by two cases of the switch, so their order does not matter |

## Left out

- HTTP decoding and encoding, routing, cookies, logging, Prometheus metrics, SMTP, GORM, the command-line tools: I/O.
- Failing Redis calls, and the error branches only they reach: Redis is modelled by its contract. Its rounding of TTLs to milliseconds or seconds, and a clock of its own, are not captured.
- The simple Redis limiter, the variants for authenticated users and GetMetrics: no branch that the enhanced limiter does not have.
- Floating point: the backoff multiplier is an exact integer; ProgressPct and the percentages are not modelled.
- MemoryRateLimiter: the lock of the Go code is not modelled; each operation, including the check and the delete of IsAllowed, is one atomic step.
- LockoutHistory.LimiterRefinesHistory: does not cover logins of one IP that overlap; a record made while the IP is locked can move its lock, which the history does not say.
- BulkJobs: the job store is the set of tasks, so the "job not found" answers are not modelled; the status record is read and written in atomic steps, while the Go code shares it without a lock; audit log entries of the bulk operations are not modelled.
- BulkRevoke.RetriesMatchFaultFree: an Update that reports an error leaves the store unchanged.
- NotificationQueue: a nil notification; the timestamps of a notification and the text that is sent.
- TemplateRendering.OrderIrrelevantIffIndependent: does not cover variable names with braces, and templates whose text has an opening brace outside placeholders (the built-in ones have none); values are any texts.
- TemplateRendering.RenderTemplate: outside that domain, and for values that are not independent, promises no more than some order.
- LicenseListCache: the comparison functions of sort.Slice; the sort is any function of the filtered list. GetAll returns rows in primary-key order, and JSON loses nothing.
- LicenseListCache.CacheIsTransparent: bulk revocation is not among its writers; what it does to the cache is stated exactly by LicenseListCache.BulkRevokeCoherent and LicenseListCache.BulkRevokeSeenBy.
- LicenseListCache: the activation table. The license service does not load it with the license, so that CanActivate counts no activation, and the model follows.
- PermissionCache: per-user grants, which the code does not store.
- SessionCache: invalidation by IP address, and glob characters other than the star; access and refresh token entries. SCAN may return a key repeatedly, and may not miss one.
- TokenRotation.ChainsHaveOneOwner: takes it that the user table answers a lookup with the user of that id.
- TokenRotation: signing; a token is its claims, and only issued tokens validate. Rotation is atomic.
- UsageAnalytics: the activation totals, the status distribution, the forecast and the activity timeline: plain counting.
- AuditCsv: the filters before the export, and the formatting of timestamps.
- HumanDuration: letters outside ASCII in ToLower, units of several words, and the fallbacks of parseTTLFromEnv.
