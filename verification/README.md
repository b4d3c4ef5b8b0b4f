# Auth service: verified model

A Dafny model of the OAuth service's stateful core, with proofs about whole runs of it. Each module follows one
component; classes carry the code that updates state in place, and each of their methods is proved equal to a
function on values, about which the main results are then proved.

| component | modules |
|---|---|
| refresh-token rotation (sections 6 and 10.4 of RFC 6749, section 4.14.2 of RFC 9700) | `Tokens` (state machine), `GrantRules`, `Chains`, `Reuse`, `ScopeGrants`, `CleanupUnseen`, `Interleaving`, `Admission`, `InterleavedReuse`, `RefreshTokenService`, `TokenEndpoint`, `SessionService`, `Scopes` |
| counters in Redis | `Redis`, `FixedWindow`, `RateLimiter`, `BruteForce`, `LoginLockout` |
| token blacklist | `TokenBlacklist` |
| email with retries | `EmailRetry` |
| pure transformers | `Jwks` (section 2 of RFC 7518), `HtmlText`, `HtmlPieces` |
| password reset | `PasswordReset`, `InterleavedReset` |
| shared | `Common`, `Text` |

## Reading the model

- **Time** is a parameter. Instants are microseconds; a JWT's `exp` is in whole seconds. A JWT decodes while `exp` is
  not before the current whole second, but a row is expired as soon as `now > expires_at`; the two differ within the
  second of expiry, and `CleanupUnseen` depends on it.
- **Ids** (users, clients, sessions, jtis, addresses) are opaque and only compared; `Blank` is the empty string.
  Hashing a jti or a reset token is injective, so rows are keyed by the id itself. Newly drawn ids are fresh: that is
  what the `Legal` predicates ask of an event, and nothing else.
- **Signing**: a token is valid exactly when it was issued. `issued` maps a jti to the claims signed for it.
- **History variables** (`log`, `changes`, `counted`) record what was saved, changed or counted; no step reads them
  except to state freshness.
- **Steps**: in `Tokens`, `BruteForce`, `TokenBlacklist` and `PasswordReset` one handler or service call is one step at
  one instant. `Interleaving` breaks the two grants at their commits, `InterleavedReset` the confirmation of a password
  reset, and `RateLimiter` a check between INCR and EXPIRE; each lets other requests run in between, and the pieces of
  one request run without interruption are proved to be the single step.
- **Events of `Tokens`**: both grants, session revocation, revoking all sessions but one, cleanup with any retention,
  the clock, new clients, and users created or (de)activated. A client's row does not change once it exists.
- **What functions mean** is stated apart from them, in the fields of the state: when each grant succeeds and what it
  changes (`GrantRules`), what the service methods do to each column (their `ensures`), when a lock is on
  (`LoginLockout`), which outcomes are retried (`EmailRetry`), what a page extracts to (`HtmlPieces`).
- **Redis**: a key with a deadline no longer exists from that instant on.

## Where the code does not give what one might expect

Each of these is proved; where a property holds only sometimes, exactly when it does:

- Cleanup of refresh tokens is invisible at the token endpoint if and only if `days_to_keep >= 1`
  (`CleanupUnseen.UnseenExactlyFromADay`). With less, a replayed token can be answered "not found" instead of "reused"
  within the second of its expiry, and its family is not revoked.
- One live token per session holds when handlers do not overlap. When they interleave at their commits, letting an
  arriving refresh in is safe if and only if it cannot go on to rotate its token (the token does not decode or is not
  valid in the table, or the client is not the token's or may not refresh), or no refresh under way contends for the
  same token: none that has signed a successor, and none that was validated for a client that may still pass
  (`Admission.AdmissionIsExact`). The condition can be read off the table and the requests under way before the new one
  is let in. Whenever it is violated, the requests under way can go on to leave two live tokens
  (`Admission.OverlapForks`); as long as it is kept, no interleaving does (`Admission.AdmittedKeepsOneLive`).
- Under interleaving a replay kills the family except for what requests already in flight go on to save
  (`InterleavedReuse.ReplayUnderInterleaving`).
- A password-reset token is used once when confirmations do not overlap. When they interleave, letting one in is safe
  if and only if it would fail or no confirmation under way holds the same token (`InterleavedReset.AdmissionIsExact`).
- A blank but nonempty scope request is granted as "", which on its own means every allowed scope
  (`Scopes.RevalidatingIsIdentity`).
- Extraction undoes autoescaping exactly for texts without quote characters (`HtmlText.ExtractUndoesEscape`).
- Zero is encoded as "", where section 2 of RFC 7518 writes "AA" (`Jwks.MinimalExceptZero`).
- The fixed-window limits admit up to `2 * limit - 1` requests in one window's time, and do so for some run
  (`RateLimiter.AllowedPerWindow`, `RateLimiter.BoundIsReached`).
- The blacklist index of a batch also holds the jtis that had already expired, and its deadline is the largest, not the
  last; it equals that of single revocations exactly under the condition of `TokenBlacklist.IndexesAgree`.

Where the code and its own documentation differ, the model follows the code: `max_retries=0` means the configured
default just as None does; a jittered backoff may fall below its nominal value; revoking an expired token returns
False instead of raising; a confidential client passes neither grant, since `validate_client` is called without its
secret.

## Model

| member | source | states |
|---|---|---|
| Chains.EverySessionIsAChain | app/api/v1/oauth.py:466-490 | In every state any run reaches, the tokens ever saved in a session form one linear parent-to-child chain without repeats: one user, client and scope, `created_at` and `expires_at` never decreasing, all but the newest dead, and the rows not yet cleaned up are exactly a final segment (so a cleaned token's ancestors are all cleaned) |
| Chains.NeverTwoLive | app/api/v1/oauth.py:466-490 | In every reachable state no two unrevoked rows share a session |
| Chains.RowsShowPayloads | app/services/refresh_token_service.py:41-66 | In every reachable state each stored row still shows the user, client, scope and expiry of the payload signed for it |
| Chains.StepKeeps | app/services/refresh_token_service.py:41-226 | Every event keeps the invariant: `revoked` holds exactly when `revoked_at` is set, rows differ from what was saved only in these two, parents are dead and were rotated into their children |
| Chains.StepShape | app/api/v1/oauth.py:365-490 | The only steps that save a token are an accepted password grant and the rotation of a live row; every other step only revokes or deletes rows |
| Chains.StepChains | app/api/v1/oauth.py:474-490 | From any state whose sessions are chains, every event leads to one whose sessions are chains |
| Chains.LiveIsNewest | app/services/refresh_token_service.py:144-151 | A live row is the last token of its session's chain |
| Chains.PurgingKeeps | app/services/refresh_token_service.py:210-220 | Deleting by any expiry cutoff never deletes a child before its parent, nor anything else the invariant needs |
| Chains.SavingKeeps | app/services/token_service.py:88-102 | Saving a freshly signed token, with no parent or a dead one it rotates, keeps the invariant |
| GrantRules.RefreshGrantedExactly | app/services/auth_service.py:262-367 | A refresh is granted if and only if the token was issued and its `exp` is not before the current second, its row is stored, unrevoked and unexpired, it belongs to the asking client, which is registered, active, public and allowed to refresh, and its user is active |
| GrantRules.RefreshRefusals | app/api/v1/oauth.py:365-450 | Which other answer a refresh gets, in the order of the checks; only reuse changes anything |
| GrantRules.RefreshEffect | app/api/v1/oauth.py:466-490 | A granted refresh signs a token of the same user, client and scope with the client's lifetime, revokes the used row now, adds the child to its session and changes no other row |
| GrantRules.PasswordGrantedExactly | app/services/auth_service.py:66-162 | A login is granted if and only if it is not locked out, the client is registered, active, public and allowed to log users in, the password matched an active user's, and the requested scopes, if any, are among the client's |
| GrantRules.PasswordEffect | app/api/v1/oauth.py:296-311 | A granted login signs and saves one token of that user with the requested scopes, or with all the client has, in a new session, and changes no other row |
| GrantRules.OtherEffect | app/services/refresh_token_service.py:195-269 | Column by column what every other event changes |
| GrantRules.DeactivatedGetsNothing | app/services/auth_service.py:355-367 | From a user's deactivation until the user is active again, through any run, no grant of either kind gives out a token of that user |
| Reuse.ReplayKillsFamily | app/services/refresh_token_service.py:114-188 | Presenting a token revoked for any reason is answered as reuse, leaves no live row of its user and client, and changes no other pair's rows, no key and nothing else |
| Reuse.ReplayIsForever | app/services/refresh_token_service.py:157-188 | After a replay, in every continuation: no token the pair had been issued by then is granted anything again, and a live row of the pair descends from a password grant made later |
| CleanupUnseen.KeepingADayIsUnseen | app/services/refresh_token_service.py:195-226 | Cleanup steps keeping at least a day can be inserted anywhere in any run: they make no run illegal and change no verdict of either grant, then or later |
| CleanupUnseen.ReplayAtExpiry | app/services/token_service.py:228-236 | A concrete run after which a revoked token still decodes although its row's `expires_at` has passed |
| CleanupUnseen.KeepingLessIsSeen | app/services/refresh_token_service.py:210-214 | For every retention below a day some run's verdicts change when its cleanup is taken out |
| CleanupUnseen.UnseenExactlyFromADay | app/services/refresh_token_service.py:195-226 | Cleanup is unseen in all runs if and only if `days_to_keep >= 1` |
| CleanupUnseen.StepShadows | app/api/v1/oauth.py:365-417 | The bisimulation step: a state and the same state with its cleaned rows still there give the same verdict and stay related |
| ScopeGrants.StoredScopesWithinAllowed | app/services/auth_service.py:389-395 | In every reachable state each stored row's scope set lies within its client's allowed scopes |
| Scopes.GrantedWithinAllowed | app/services/oauth_client_service.py:229-264 | A nonempty request is accepted exactly when it names a subset of the allowed set, and then granted as the very set it names; an absent or empty one is granted all that is allowed; nothing beyond is ever granted |
| Scopes.SameStringIffSameSet | app/services/oauth_client_service.py:252-264 | Two accepted nonempty requests normalise to the same string exactly when they name the same set |
| Scopes.RevalidatingIsIdentity | app/services/oauth_client_service.py:247-264 | Validating a granted scope again returns it unchanged exactly when it names some scope, or the client is allowed none |
| Scopes.NormalNames | app/services/oauth_client_service.py:262-264 | Splitting the sorted, joined set gives its words back in order: the normal form names the set |
| Scopes.AtMostMeans | app/services/oauth_client_service.py:263 | The order of `sorted`: a string comes first when it ends where the other goes on, or is smaller at the first difference |
| Text.SplitJoin | app/services/oauth_client_service.py:252-263 | `split()` undoes `" ".join(...)` on every list of words |
| Text.SplitAtSpace | app/services/oauth_client_service.py:252 | Every whitespace character separates and none is kept: splitting `a`, a whitespace character and `b` gives the words of both |
| Text.OneWord | app/services/oauth_client_service.py:252 | A text without whitespace is one word, or none |
| Interleaving.AnyInterleaving | app/api/v1/oauth.py:466-490 | Under every interleaving at commits: `revoked` exactly when `revoked_at` is set, a stored parent is dead and has its child's user, client and scope, and parent links have no cycle |
| Interleaving.RunFinal | app/services/refresh_token_service.py:144-151 | Under every interleaving a saved token is never brought back, as a row or to life |
| Interleaving.StepHeld | app/services/auth_service.py:339-395 | Every committed piece of every handler keeps the invariant over rows, history and the tokens handlers have signed but not saved |
| Interleaving.UninterruptedIsAtomic | app/api/v1/oauth.py:365-490 | The pieces of one refresh run without interruption are exactly the refresh grant of the atomic protocol, whatever its verdict |
| Interleaving.UninterruptedLoginIsAtomic | app/api/v1/oauth.py:224-311 | The two pieces of a login run without interruption are exactly the password grant of the atomic protocol |
| Interleaving.SavingPiece | app/api/v1/oauth.py:475-490 | The last piece of a refresh: a token expired meanwhile is not saved; another joins the session of the row it replaces, or a new one when that row is gone |
| Interleaving.AbortedIsIdle | app/api/v1/oauth.py:365-490 | A handler that stops between its commits leaves the state as it is, and none of its remaining pieces does anything |
| Admission.AdmissionIsExact | app/api/v1/oauth.py:399-490 | In every state that admitted runs reach, and for every arriving refresh: all continuations without further arrivals keep one live token per session if and only if the refresh cannot rotate its token or no handler under way contends for it |
| Admission.AdmittedKeepsOneLive | app/api/v1/oauth.py:399-490 | As long as every arriving refresh meets that condition, no interleaving leaves two live tokens in a session |
| Admission.OverlapForks | app/api/v1/oauth.py:399-490 | Whenever two handlers contend for a token that may be rotated, at whatever point each of them is, they can go on, with no further refresh arriving, to leave two live tokens in its session |
| Admission.ApartKeepsOneLive | app/api/v1/oauth.py:399-490 | In particular, if refreshes of the same token never overlap, no interleaving leaves two live tokens in a session |
| InterleavedReuse.ReplayUnderInterleaving | app/services/refresh_token_service.py:114-188 | After a replay, under every interleaving: no token the pair had by then is validated again, and a live row of the pair descends, by tokens saved later only, from a login saved later or from a token that a request in flight at the replay had signed or whose parent it had validated |
| RefreshTokenService.Service.SaveRefreshToken | app/services/refresh_token_service.py:18-70 | Adds the row of the payload; a blank parent counts as none and a blank session is replaced by the generated one |
| RefreshTokenService.Service.GetByJti | app/services/refresh_token_service.py:72-92 | The row of the jti, if there is one |
| RefreshTokenService.Service.ValidateRefreshToken | app/services/refresh_token_service.py:94-127 | Not found, reused, expired and valid in the code's order; only reuse changes the table, and then by the whole family |
| RefreshTokenService.Service.RevokeToken | app/services/refresh_token_service.py:129-155 | Revokes that row alone and reports whether it exists |
| RefreshTokenService.Service.RevokeTokenChain | app/services/refresh_token_service.py:157-193 | The table after the loop is the reused row revoked, then every live row of its pair, all others unchanged |
| RefreshTokenService.Service.CleanupExpiredTokens | app/services/refresh_token_service.py:195-226 | A row stays, unchanged, if and only if it expired no longer than the given days ago, revoked or not; returns how many went |
| RefreshTokenService.Service.RevokeSession | app/services/refresh_token_service.py:228-269 | Column by column: a row is marked now if and only if it was live, its user is the given one and its session is the given one; reports whether there was such a row |
| TokenEndpoint.Endpoint.AuthenticatePasswordGrant | app/services/auth_service.py:66-189 | Signs a token exactly when client, grant type, user and scope pass, for that user with the normalised scope and the client's lifetime |
| TokenEndpoint.Endpoint.AuthenticateRefreshGrant | app/services/auth_service.py:262-395 | Signs a token exactly when client, grant type, token, matching client and active user pass, for the same user and scope |
| TokenEndpoint.Endpoint.HandlePasswordGrant | app/api/v1/oauth.py:188-311 | The handler's sequence of updates is one step of the token protocol and one attempt of the brute-force machine |
| TokenEndpoint.Endpoint.HandleRefreshGrant | app/api/v1/oauth.py:365-490 | The handler's sequence of updates is one refresh step of the token protocol, with its verdict |
| SessionService.Service.ListUserSessions | app/services/session_service.py:30-61 | One entry for each session in which that user has a live row, newest first, with the columns of the latest such row |
| SessionService.InsertNewestFirst | app/services/session_service.py:61 | Keeps a newest-first list of distinct sessions so, and adds just the entry |
| SessionService.InsertedStably | app/services/session_service.py:61 | The entry goes behind those as new as itself, as in a stable descending sort |
| SessionService.Service.SortedEntries | app/services/session_service.py:49-61 | The dictionary's entries, each once, newest first |
| SessionService.Service.GetSessionInfo | app/services/session_service.py:80-104 | None if and only if every row of that user in that session is revoked, else the columns of one live row of that user and session, whichever comes first |
| SessionService.Service.RevokeSession | app/services/session_service.py:123-150 | Column by column: a row is marked now if and only if it was live, its user is the given one and its session is the given one; reports whether there was such a row |
| SessionService.Service.RevokeAllSessions | app/services/session_service.py:169-200 | The loop with its skips marks a row if and only if it was live, its user is the given one and its session is not the excepted one, an empty exception excepting nothing, and counts exactly those |
| SessionService.Service.GetActiveSessionsCount | app/services/session_service.py:217-218 | The number of sessions in which that user has a live row |
| SessionService.FirstIsListed | app/services/session_service.py:80-92 | With one live token per session, the unordered first row is the one the listing shows, and there is none exactly when none is listed |
| SessionService.ListingSize | app/services/session_service.py:41-61 | The listing is as long as the user has live tokens |
| SessionService.RevokeAllCountsSessions | app/services/session_service.py:169-200 | Revoking all returns the prior session count, less one when the excepted session was live, and leaves exactly that session |
| SessionService.ReadsAgreeWhenReachable | app/services/session_service.py:80-92 | In every reachable state the detail of a session exists exactly when it is listed and agrees with its entry, and the count is the number of live tokens |
| SessionService.OthersUntouched | app/services/session_service.py:123-200 | Whatever is revoked for one user changes no row, listing, detail or count of another |
| FixedWindow.TwoLimitsSpanWindow | app/services/rate_limiter.py:47-56 | Any `2 * limit` counted hits in a row span at least a window |
| FixedWindow.AtMostTwoLimitsLessOne | app/services/rate_limiter.py:47-56 | At most `2 * limit - 1` hits lie in any half-open interval of one window |
| RateLimiter.Service.CheckRateLimitIp | app/services/rate_limiter.py:41-64 | Counts the request, gives a new counter its window, allows while fewer than `limit` were counted, and tells how many remain |
| RateLimiter.Service.CheckRateLimitUsername | app/services/rate_limiter.py:88-111 | The same for a username |
| RateLimiter.Service.Reset | app/services/rate_limiter.py:118-130 | Deletes the counter and no other |
| RateLimiter.RunWillExpire | app/services/rate_limiter.py:48-53 | Under every interleaving of requests, resets and time, a counter without deadline has a request that will set it; once all requests have finished every counter goes away within a window |
| RateLimiter.ResetStartsAnew | app/services/rate_limiter.py:118-130 | After a reset the next request of that key, and of no other, counts from one again |
| RateLimiter.AllowedPerWindow | app/services/rate_limiter.py:47-64 | However requests interleave, a key that is not reset has at most `2 * limit - 1` allowed requests in any interval of one window |
| RateLimiter.BoundIsReached | app/services/rate_limiter.py:47-64 | For every limit and window some run reaches `2 * limit - 1` |
| RateLimiter.CheckIsBeginFinish | app/services/rate_limiter.py:47-53 | An uninterrupted check is its INCR step directly followed by its EXPIRE step |
| BruteForce.Service.RecordFailedAttempt | app/services/brute_force_protection.py:38-51 | Both counters are counted and the new ones get the lockout duration |
| BruteForce.Service.IsLockedOut | app/services/brute_force_protection.py:78-101 | Locked exactly when the username's counter has the threshold or the IP's twice that |
| BruteForce.Service.ResetFailedAttempts | app/services/brute_force_protection.py:122-126 | Deletes both counters and no other |
| BruteForce.Service.GetFailedAttemptsCount | app/services/brute_force_protection.py:148-151 | The username's counter, 0 if there is none |
| BruteForce.RunCapped | app/api/v1/oauth.py:188-242 | Over any run a username's counter never exceeds the threshold, an IP's never twice that, and each expires within a lockout duration |
| BruteForce.LockHolds | app/api/v1/oauth.py:188-207 | Once a username or an address has reached its threshold nothing anyone attempts, from anywhere, lifts the lock before that counter's deadline |
| BruteForce.LockRunsOut | app/services/brute_force_protection.py:47-51 | A lockout duration later, with nothing else recorded, nobody is locked out any more |
| BruteForce.FailuresPerLockout | app/services/brute_force_protection.py:43-51 | Since its last reset a username sees at most `2 * threshold - 1` failed authentications in any interval of one lockout duration |
| BruteForce.RecordedExactly | app/services/brute_force_protection.py:43-51 | A failure counts once on both counters, a new counter starts the lockout and an old one keeps its deadline, and no other counter changes |
| LoginLockout.LockedExactly | app/services/brute_force_protection.py:78-101 | A login is answered with the lock if and only if its username's counter shows the threshold or its address's twice that |
| LoginLockout.CountersAfter | app/api/v1/oauth.py:188-279 | What each login leaves: locked, nothing changed; refused, a failure more on both counters; granted, neither of them; other counters never change |
| LoginLockout.LockedGetsNothing | app/api/v1/oauth.py:189-207 | Over the joint run: once a username's counter shows the threshold, or an address's twice that, every login with it is turned away until that counter's deadline, even with the right password, and nothing is signed, saved or counted |
| LoginLockout.FewFailuresDoNotLock | app/services/brute_force_protection.py:79-101 | Over any run from empty counters: with fewer failures since the last granted login than the threshold for the username, and than twice that for the address, a login is decided by its credentials alone |
| TokenBlacklist.Service.RevokeToken | app/services/token_blacklist_service.py:72-132 | False and no change for an expired token; otherwise all three keys get the deadline in `max(exp - now, 3600)` seconds, and the stored dictionary has the caller's entries, the recorded ones where the caller has none, and no other |
| TokenBlacklist.Service.RevokeAllUserTokens | app/services/token_blacklist_service.py:168-237 | The loop that queues commands, skips and keeps a maximum writes exactly the batch's keys and returns the number of positions in the list whose token is live |
| TokenBlacklist.Service.IsTokenRevoked | app/services/token_blacklist_service.py:265-271 | Whether the jti's key exists |
| TokenBlacklist.Service.GetTokenMetadata | app/services/token_blacklist_service.py:299-305 | The stored metadata while its key exists |
| TokenBlacklist.Service.CleanupUserTokens | app/services/token_blacklist_service.py:329-355 | Removes exactly the members no longer blacklisted, an emptied set too, and returns how many |
| TokenBlacklist.BatchRefinesSingles | app/services/token_blacklist_service.py:172-218 | The batch leaves the same blacklist and metadata, expiries included, as one call after another at that instant; its index holds the whole list and lives exactly as long as the longest-lived key it wrote; without a live token nothing changes |
| TokenBlacklist.BatchIsFold | app/services/token_blacklist_service.py:178-207 | The queued commands and the fold of single calls agree on both maps; the fold adds just the live jtis to the user's index and touches no other user's |
| TokenBlacklist.IndexesAgree | app/services/token_blacklist_service.py:93-98 | Batch and fold leave the very same store, index and its deadline included, if and only if no token was live, or every jti of the list is a live one or indexed before, and the last live token has the longest-lived key |
| TokenBlacklist.CleanupLeavesBlacklisted | app/services/token_blacklist_service.py:340-348 | After cleanup the user's members are exactly the earlier ones still blacklisted; blacklist, metadata and other users' members are unchanged |
| TokenBlacklist.RevokingSetsDeadline | app/services/token_blacklist_service.py:82-115 | Alone or anywhere in a batch, repeats included, a live token's key gets the deadline of its own `exp`, an hour away at least |
| TokenBlacklist.RevokedUntilExpiry | app/services/token_blacklist_service.py:82-115 | A token revoked while alive, alone or in a batch, is reported revoked at every later instant before its `exp`, and for an hour at least, through all later single, batch, repeated and cleanup steps |
| TokenBlacklist.OnlyRevokedIsReported | app/services/token_blacklist_service.py:82-91 | The converse: over any run, whatever is reported revoked was revoked while alive, no longer ago than the rest of its life then, or an hour |
| TokenBlacklist.KeysRunOut | app/services/token_blacklist_service.py:82-91 | Left alone, a revoked token is reported exactly for the rest of its life, or an hour if that is longer |
| TokenBlacklist.MetadataWhileBlacklisted | app/services/token_blacklist_service.py:100-115 | In every reachable state, at every instant, metadata exists exactly while the jti is blacklisted |
| EmailRetry.SendWithRetry | app/services/email_retry.py:58-111 | On the outcomes themselves: True if and only if some attempt within the allowance is accepted and every earlier one was a timeout, a connection error or a 4xx response; the sends end at the first outcome that is none of these, or with the allowance; one sleep fewer than sends, each the backoff of its attempt |
| EmailRetry.TraceInOutcomes | app/services/email_retry.py:164-171 | The same for every trace, whoever produces it |
| EmailRetry.SendEmailMaps | app/services/email_sender.py:60-128 | True for an accepted message only, False for a failed login and 5xx only, and the error itself is raised for everything else |
| EmailRetry.TraceDecides | app/services/email_sender.py:60-128 | The outcomes determine the number of sends, and these end in success exactly when some attempt within the allowance is accepted after nothing but transient errors |
| EmailRetry.JitterBounds | app/services/email_retry.py:139-143 | A jittered backoff lies within a tenth of its nominal value, and is zero for a negative one |
| EmailRetry.JitterSpreads | app/services/email_retry.py:139-143 | The jitter spreads a sleep linearly from nine to eleven tenths of its nominal length |
| EmailRetry.BackoffDoubles | app/services/email_retry.py:133-137 | The nominal backoff starts at the base delay and doubles up to 300 seconds |
| EmailRetry.TotalSleep | app/services/email_retry.py:133-143 | The sleeps of any call add up to between 0.9 and 1.1 times the capped geometric sum, hence to at most 1.1 times `base * (2^m - 1)` and 1.1 times `300 * m` |
| HtmlText.StripIsNormalise | app/services/email_templates.py:169-171 | Collapsing whitespace by regular expression and stripping is splitting into words and joining them with blanks |
| HtmlPieces.ExtractPage | app/services/email_templates.py:154-173 | For every page put together in any order from escaped values, no-break blanks, tags, styles and scripts: extraction gives the values, with blanks for the no-break ones, whitespace normalised and quotes as entities, and nothing of the rest |
| HtmlPieces.ElementsDoNotShow | app/services/email_templates.py:155-158 | After text without '<' and before anything at all, a style or script element makes no difference to the extraction |
| HtmlText.OutputIsNormal | app/services/email_templates.py:169-173 | For every input the text has no leading, trailing or doubled whitespace |
| HtmlText.ShortestBlock | app/services/email_templates.py:155-158 | The matcher for style and script elements takes the shortest match of the regular expression at a position, and nothing exactly when none starts there |
| HtmlText.BlockRemoved | app/services/email_templates.py:155-158 | Such an element disappears with its content up to the first closing tag, text before it stays, and scanning goes on right after it |
| HtmlText.TagAheadMatches | app/services/email_templates.py:161 | The matcher for tags takes exactly the match of the regular expression at a position, which is unique |
| HtmlText.TagsAllRemoved | app/services/email_templates.py:161 | After tag removal no tag is left to match, not even one put together by the removal |
| HtmlText.RemovingTagsTwice | app/services/email_templates.py:161 | Tag removal is idempotent and leaves a text alone exactly when it has no tag |
| HtmlText.DecodeEscaped | app/services/email_templates.py:163-167 | Decoding in the code's order, the ampersand last, turns an autoescaped text back, quotes staying numeric entities |
| HtmlText.ExtractEscaped | app/services/email_templates.py:163-173 | Extracting a page that is one autoescaped text gives it with quotes as entities and whitespace normalised |
| HtmlText.ExtractUndoesEscape | app/services/email_templates.py:58-64 | The extraction is the text with whitespace normalised if and only if the text has no quote character |
| Jwks.OctetsAreExact | app/services/jwks_service.py:55-59 | The octets taken by bit length hold the value exactly, with a nonzero first octet for every positive value |
| Jwks.SextetsReverse | app/services/jwks_service.py:62 | Regrouping octets into sextets and back loses nothing, and k octets give ceil(4k/3) sextets |
| Jwks.SextetsAreCanonical | app/services/jwks_service.py:62 | The sextets are the only ones that decode to the octets and fill a last partial group with zero bits |
| Jwks.Alphabet | app/services/jwks_service.py:62 | The letters of the URL and filename safe alphabet: capitals, small letters and digits, each in order, then '-' and '_' |
| Jwks.StrippingIsPadding | app/services/jwks_service.py:62-63 | Stripping takes exactly the padding and no data: k octets give ceil(4k/3) characters, none of them '=' |
| Jwks.RoundTrip | app/services/jwks_service.py:45-63 | Decoding the encoding of any value gives it back |
| Jwks.Injective | app/services/jwks_service.py:45-63 | Different values are encoded differently |
| Jwks.MinimalExceptZero | app/services/jwks_service.py:55-63 | The encoding is empty exactly for zero and has no superfluous zero octet |
| PasswordReset.Service.CreateToken | app/services/password_reset_service.py:21-56 | Stores an unused token of that user that expires 30 minutes later, whoever the user is |
| PasswordReset.Service.VerifyToken | app/services/password_reset_service.py:58-97 | The user of a token that is stored, unexpired and unused, else none |
| PasswordReset.Service.MarkTokenUsed | app/services/password_reset_service.py:99-133 | Marks that token alone and reports whether it exists |
| PasswordReset.Service.CleanupExpiredTokens | app/services/password_reset_service.py:135-165 | Deletes exactly the tokens whose expiry has passed and returns how many |
| PasswordReset.Service.ConfirmPasswordReset | app/api/v1/password_reset.py:177-301 | The handler's sequence of updates is one confirm step with its reply: mismatch, weak, locked, invalid or changed |
| PasswordReset.TokensWorkOnce | app/api/v1/password_reset.py:248-295 | Over any run a token changes one password at most, once, that of the user it was created for, at most 30 minutes after its creation |
| PasswordReset.WorksForThirtyMinutes | app/services/password_reset_service.py:39-41 | A fresh token still changes the password when 30 minutes have passed, and no longer after that |
| PasswordReset.ConfirmDecides | app/api/v1/password_reset.py:177-285 | Which reply a confirmation gets, on counters, token columns and users: changed if and only if the passwords match and are strong, neither counter has reached its limit, the token is stored, unexpired and unused, and its user exists |
| PasswordReset.ConfirmEffect | app/api/v1/password_reset.py:251-301 | A change sets that user's password, marks the token now and clears both counters; a token that does not work counts as a failure on both; nothing else changes anything |
| PasswordReset.CleanupIsUnseen | app/services/password_reset_service.py:135-165 | Cleanup steps inserted anywhere make no run illegal and change no reply of the confirm endpoint and no password |
| InterleavedReset.UninterruptedIsConfirm | app/api/v1/password_reset.py:248-301 | The pieces of a confirmation (verify, commit the password, mark the token) run without interruption are the atomic handler, whatever its reply |
| InterleavedReset.AdmittedWorkOnce | app/api/v1/password_reset.py:287-301 | Under every interleaving in which no successful confirmation starts while another holds its token, a token changes one password at most, once, and its own user's |
| InterleavedReset.OverlapChangesTwice | app/api/v1/password_reset.py:287-295 | Two confirmations holding one token, the first before or after its password commit, can go on to change a second password |
| InterleavedReset.AdmissionIsExact | app/api/v1/password_reset.py:248-295 | In every state that admitted runs reach, and for every arriving confirmation: no continuation uses a token twice if and only if the confirmation would fail or no handler under way holds its token |

## Left out

- HTTP, request parsing and the replies for missing parameters, logging, tracing, metrics, audit and events: plumbing around the modelled steps.
- RSA, bcrypt, SHA-256, uuid and random generation: taken as "valid exactly when issued", "injective" and "fresh".
- Access tokens, `iat`, `nbf`, issuer and audience: nothing in the rotation protocol reads them.
- The columns `ip_address`, `user_agent`, `last_used`, `last_rotated_at`, and `last_login_at` of users: written, never read by a modelled decision.
- `get_user_sessions` and `get_session_metadata` of the refresh-token service: the same loop and query as `list_user_sessions` and `get_session_info`.
- Deleting users or clients with their cascades, and changing a client after its creation: no modelled operation does it.
- The logout endpoint: it calls `validate_token`, which the auth service does not define.
- `delete_user` of the admin API: its router is not mounted.
- Redis failures: the limiters then let requests through, so their bounds are about runs in which Redis answers.
- A crash between INCR and EXPIRE, after which a counter would stay without deadline.
- RateLimiter.AllowedPerWindow: says nothing about a key that is reset within the run, since a reset starts a new count.
- RateLimiter.BoundIsReached: asks for a window of two microseconds at least; the code's windows are whole seconds.
- TokenBlacklist.Service.RevokeToken: its Redis commands are one step, and metadata values are JSON values already, so turning other objects into strings is not modelled.
- BruteForce.FailuresPerLockout: counts failures since the last successful login of the username, since a success deletes the counter.
- PasswordReset.TokensWorkOnce: is about confirm calls as single steps; what their two commits allow when calls overlap is in `InterleavedReset`, where the 30 minutes hold for the verification and not for the later commit.
- A crash between the password commit and the marking of its token, after which the token would work again.
- The blacklist index outliving every entry: each call overwrites its TTL, so the code does not give it.
- Asking for a reset, its rate limit and its email; MIME building and SMTP itself: only the outcome of a send is kept.
- Template rendering: only autoescaping of a value is kept, as a function on text.
