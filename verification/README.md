# A verified model of the StoreMesh user service

This project models, in Dafny, how the user service keeps its authentication
sessions, its user tables and its paging, and proves what holds of them over every
input, every run and every interleaving. `dafny verify dfyconfig.toml` checks it.

## What is modelled

**Sessions, command by command** (`Protocol*.dfy`). Any number of clients run login,
refresh, logout, logout-all and revocation calls at once. Each step is one Redis command, one
`MULTI`/`EXEC` block, one user lookup, one clock tick, one expiry, or one clean failure.
`WATCH` compares a per-key stamp. The state also records what has happened: every
generation of every session, who holds each identifier, and each finished sweep of a
user's sessions. `ProtocolInvariant` is kept by every step; `ProtocolTheorems` and
`ProtocolWinner` draw the results for all runs; `ProtocolSolo` shows that calls which
are not interleaved make exactly the atomic steps of the session store. `ProtocolAccounts`
puts role writes and deletions of users among the commands and says which tokens they
leave stale; `ProtocolLogout` says when a successful logout is final. `Samples`,
`SampleWorlds` and `SampleRuns` hold the values, the world and the runs of the examples.
`ProtocolCalls` says what whole calls achieve when their commands run alone, and `Levels`
that this is what the atomic calls of the service do.

**Sessions, call by call.** `SessionCache.dfy` is the store as the Go code has it, over
text keys, with the retry loop of a rotation, the key-building loop of a mass deletion
and the command sequences; every method is proved to be the matching step of
`SessionStore.dfy` on the structured view of the keyspace (`RedisKeys`, `RedisCommands`).
`SimpleStore.dfy` compares that store with the plain map that the service's tests use.

**The service over both stores.** `UserService.dfy` and `UserRepository.dfy` are the
service and the repository as classes; each service method is proved to make the step
`Service.Apply` of the whole world (clock, tables, sessions, issued tokens). `Effects`
and `Answers` say when each call succeeds, what it changes and what it answers;
`Agreement`, `StaleTokens`, `Accounts` and `SessionLineage` prove what runs of calls do. `Roles` and `Text` are
role lists, addresses and user ids.

**Paging, readiness and the bearer header.** `PageCount` models the binary64 division and
`Ceil`; `Paging` the listing; `Readiness` the gatherer with its channel; `Bearer` the header.

## Premises

- Identifiers from the UUID supply are fresh and non-empty; new user ids are canonical.
- Signing is ideal: a token is its claims, and only issued tokens parse. A password hash
  matches exactly the password it was made from.
- There is one clock, in nanoseconds, and it does not go back. Token dates are whole seconds.
- One constant refresh lifetime, larger than a positive access lifetime. Redis deadlines are
  exact, which is the case for lifetimes of whole seconds.
- A Redis key is live up to and including its deadline; whether `EXEC` aborts because a
  watched key merely ran past its deadline is left open, and both are covered.
- A command or a query either takes effect and answers, or fails with no effect. In a run of
  whole calls each call may meet any one such failure, at any of its commands.
- The role table is fixed after start-up, role names in it are unique, and the initial
  tables hold canonical ids and normalized unique addresses.
- A query with a zero or negative offset carries no `OFFSET` clause.

## Where the code falls short of what one would expect

Each of these is proved with the input that shows it and with the exact condition under
which the code does what is expected.

- *A failed role change may have happened.* `AssignRole` and `RevokeRole` commit the change
  and then read the user back; when that query fails the caller gets an error
  (`Effects.LostAnswerChangesTables`). `Accounts.FailureChangesTablesIff`: no other failed call changes the tables.
- *Stale tokens after a role change.* `AssignRole`, `RevokeRole` and `DeleteUser` pass the
  trimmed id to the session store and its parsed form to the tables. With another accepted
  spelling of the id (capital letters, braces, no hyphens, the URN prefix) the user changes and the user's
  sessions stay. `StaleTokens.NeverStaleIffCanonical`: exactly the stored spelling is safe.
- *Stale tokens of logins in flight.* Also with the stored spelling, a login or refresh that
  reads the user before a role change or a deletion and stores its session after the
  revocation keeps an accepted token (`SampleRuns.StaleTokenHappens`).
  `ProtocolAccounts.AcceptedStaleIff` and `InFlightIsStaleIff` say exactly which.
- *A logout undone.* A logout that finds its session already expired succeeds without a
  deletion; a rotation in flight can then store the session again, unless the server aborts
  its `EXEC` because the watched key has expired (`SampleRuns.LogoutUndone`,
  `ProtocolLogout.LogoutFinalIff`).
- *Password length.* The message asks for eight characters; the code counts bytes, and the
  hash refuses more than 72 (`Effects.RegistrationSucceedsIff`). `Text.BytesDiffer`: four
  characters can pass, nineteen can be refused. `Text.BytesAndCharacters`: bytes are
  characters exactly for ASCII.
- *Sessions outside the index.* A session added between the `SMEMBERS` and the `DEL` of
  `DeleteAllForUser` loses its index entry (`SampleRuns.SessionOutsideIndex`).
  `ProtocolTheorems.MissingFromIndex`: no other does.
- *Simple store and Redis differ* when a session past its deadline is rotated: the map still
  has it (`SimpleStore.DroppedRotationDiffers`). `SimpleStore.StepSimulates`: in no other case.
- *Ties in the listing.* The query orders by creation time only. `Paging.PagesPartitionIff`:
  pages show everybody exactly once if and only if no two users were created at the same moment.
- *Overflowing offsets.* `(page - 1) * perPage` wraps at 64 bits, and a page far past the end
  shows the first page. `Paging.PageWithinTotalIff` gives the bound.
- *Page count in floating point.* It is right up to 2^53 users and loses a page at 2^53 + 1
  (`PageCount.PageCountRightIff`).
- *Duplicate dependency names* make the readiness report mask a failure
  (`Readiness.ReportIsFaithfulIff`).

## Model

| member | source | states |
|---|---|---|
| ProtocolTheorems.RefreshSingleUse | internal/repository/redis/redis.go:177-263 | in every reachable state no two successful refreshes presented the same token, and no two obtained the same session record |
| ProtocolWinner.ExactlyOneWinner | internal/service/user_service.go:445-517 | while nothing deletes or expires the session and backends answer, of all refreshes with a current token exactly one returns a pair and every other finished one got ErrInvalidToken |
| ProtocolWinner.CalmRunKeeps | internal/service/user_service.go:449-505 | along such a run the token is either unspent or spent by a recorded win, and losers are only told ErrInvalidToken |
| ProtocolWinner.CurrentParses | internal/service/user_service.go:662-687 | a current refresh token parses as long as its session is unexpired: neither truncation to seconds nor the leeway cuts it short |
| ProtocolTheorems.LogoutIsFinal | internal/repository/redis/redis.go:278-335 | after the DEL of a logout no token of that session is accepted in any later state, whatever rotations were in flight |
| ProtocolTheorems.SweepIsFinal | internal/repository/redis/redis.go:337-390 | every session seen by SMEMBERS is refused for good after the DEL, even if it was rotated in between |
| ProtocolTheorems.KilledStays | internal/repository/redis/redis.go:177-244 | a deleted session key never reappears in the keyspace, over any run |
| ProtocolTheorems.PhasesNeverGoBack | internal/domain/user.go:82-96 | over any run a token id only moves from minted to shown to retired |
| ProtocolTheorems.OldPairsStayRefused | internal/service/user_service.go:619-632 | a token of a replaced generation, or of a session that is gone, is refused now and in every later state |
| ProtocolTheorems.OneOfEachType | internal/service/user_service.go:594-632 | at most one access and one refresh token ever issued for a session are accepted at a time |
| ProtocolTheorems.AcceptanceWindow | internal/service/user_service.go:649-709 | an accepted token is field by field one minted at some instant; a refresh token is within its lifetime with no leeway, an access token within its own plus the leeway and within the refresh lifetime |
| Tokens.TruncateIsFloor | internal/service/user_service.go:776-818 | numeric dates are the last whole second, and the leeway is thirty seconds |
| ProtocolTheorems.SessionLineage | internal/service/user_service.go:470-488 | over any run a session keeps id, user and creation time, its expiry never moves back, and the Redis deadline is never before it |
| ProtocolTheorems.HistoryGrows | internal/repository/redis/redis.go:205-244 | generations of a session are only ever appended |
| ProtocolTheorems.MissingFromIndex | internal/repository/redis/redis.go:350-387 | a live session is missing from its user's index if and only if its last SADD fell between the SMEMBERS and the DEL of a sweep of that user that did not see it |
| SampleRuns.SessionOutsideIndex | internal/repository/redis/redis.go:350-387 | a reachable state with such a session: stored between the SMEMBERS and the DEL |
| ProtocolTheorems.RotationRelists | internal/repository/redis/redis.go:213-239 | the next successful rotation puts the session back into the index |
| ProtocolTheorems.SecondAttemptIsLast | internal/repository/redis/redis.go:177-275 | a rotation that lost a race reaches at most the GET of its second attempt, which ends it with ErrInvalidToken |
| ProtocolTheorems.AttemptsNeverRunOut | internal/repository/redis/redis.go:265-275 | the error after exhausted attempts is unreachable through the service |
| ProtocolLogout.LogoutFinalIff | internal/service/user_service.go:519-549 | after every logout that returns success, also one whose GET found nothing, no token of the session is ever accepted again, if and only if the server aborts an EXEC whose watched key has expired |
| ProtocolLogout.SuccessfulLogoutIsFinal | internal/repository/redis/redis.go:278-335 | on such a server a successful logout is final, whatever rotations are in flight |
| SampleRuns.LogoutUndone | internal/repository/redis/redis.go:177-335 | on any other server, a run in which a rotation stores the session again after the logout has succeeded |
| ProtocolAccounts.AcceptedStaleIff | internal/service/user_service.go:217-244 | with role writes and deletions among the commands, the accepted tokens that name a deleted user or other roles are exactly the tokens, within their windows, of live sessions whose user is not any more as the session says |
| ProtocolAccounts.InFlightIsStaleIff | internal/service/user_service.go:307-362 | whoever minted a pair before a change and stores it afterwards holds an accepted stale token if and only if the pair names an address, is within its window, and the user is not as the pair says |
| ProtocolAccounts.StaleTokensEscaped | internal/service/user_service.go:315-334 | a stale accepted token's user lookup preceded a change, and for every change since that lookup the session was stored after its sweep's DEL or was missed by a sweep |
| ProtocolAccounts.GoneTokensEscaped | internal/service/user_service.go:230-243 | an accepted token names a deleted account only if the deletion came after its lookup and the session escaped the sweep of that deletion |
| ProtocolAccounts.NoStaleWithoutEscape | internal/service/user_service.go:315-334 | a session stored by the time of the last change's DEL, and missed by no sweep, has no stale token |
| SampleRuns.StaleTokenHappens | internal/service/user_service.go:217-335 | both ways of escaping happen, with a role change and with a deletion: a login in flight keeps an accepted token with the old roles |
| ProtocolAccounts.MovesKeep | internal/service/user_service.go:217-362 | over every run with role writes and deletions a token carries what its user lookup read, each change came after a sweep, and of every session stored or about to be both tokens are signed |
| ProtocolAccounts.LiveEscaped | internal/repository/redis/redis.go:350-387 | a live session has escaped every finished sweep of its user |
| ProtocolRuns.StepKeeps | internal/repository/redis/redis.go:139-390 | every enabled step of any client, and every tick, expiry and failure, keeps the protocol invariant |
| ProtocolRuns.RunKeeps | internal/repository/redis/redis.go:139-390 | hence every run keeps it |
| ProtocolSteps.ClientStays | internal/repository/redis/redis.go:177-244 | what one client relies on between two of its commands survives any step of any other |
| ProtocolSteps.KillAllKeeps | internal/repository/redis/redis.go:350-390 | the DEL of a sweep keeps the invariant and records each survivor as missed |
| ProtocolWrites.PublishKeeps | internal/repository/redis/redis.go:205-244 | an EXEC that continues a session's lineage keeps the invariant |
| ProtocolSolo.SoloRotate | internal/repository/redis/redis.go:177-263 | WATCH, GET and EXEC in a row equal the atomic rotation, result included |
| ProtocolSolo.SoloCreate | internal/repository/redis/redis.go:60-95 | a login's EXEC equals the atomic creation |
| ProtocolSolo.SoloDelete | internal/repository/redis/redis.go:278-335 | GET and EXEC in a row equal the atomic deletion |
| ProtocolSolo.SoloDeleteAll | internal/repository/redis/redis.go:337-390 | SMEMBERS and DEL in a row equal the atomic mass deletion |
| ProtocolCalls.RefreshAlone | internal/service/user_service.go:445-517 | a refresh whose commands run alone ends with a pair exactly for an accepted refresh token whose user the lookup found active, with ErrForbidden for a user not active and ErrInvalidToken for none; it then stores the session with the same id, user and creation time, the user's present address and roles, and two new token ids, and no other |
| ProtocolCalls.LogoutAlone | internal/service/user_service.go:519-549 | a logout whose commands run alone, with an accepted access token, ends exactly the token's session |
| ProtocolCalls.LogoutAllAlone | internal/service/user_service.go:551-580 | a logout everywhere run alone ends exactly the sessions of the token's user, those aside that an earlier sweep missed |
| ProtocolCalls.LogoutAllLeavesNone | internal/service/user_service.go:551-580 | if no sweep missed one, no session of the user is left, none of the user's tokens is accepted, and all other sessions are as they were |
| ProtocolCalls.RevokeAlone | internal/service/user_service.go:230-239 | the revocation before a change, run alone, does the same to the user it names |
| ProtocolCalls.CheckAlone | internal/service/user_service.go:429-443 | validating an accepted token changes nothing |
| ProtocolCalls.RefusedAlone | internal/service/user_service.go:582-647 | a token that is not accepted, or of the wrong type, ends any call; no session changes but the token's own once its time is up; a refresh is told ErrInvalidToken |
| ProtocolCalls.LoginAlone | internal/service/user_service.go:388-417 | a login run alone stores exactly one session more, created at that moment, lists it, and both its tokens are accepted |
| ProtocolCalls.FaultEnds | internal/service/user_service.go:449-505 | a failing command ends the call without effect, a refresh with ErrInvalidToken before its rotation and an internal error in it |
| Levels.RefreshAgrees | internal/service/user_service.go:445-517 | commands run alone and the atomic refresh end alike, hand out the same tokens and show the same unexpired sessions |
| Levels.LogoutAgrees | internal/service/user_service.go:519-549 | so do logouts |
| Levels.LogoutAllAgrees | internal/service/user_service.go:551-580 | so do logouts everywhere |
| Levels.LoginAgrees | internal/service/user_service.go:364-427 | so do granted logins |
| SessionCache.SessionCache.Create | internal/repository/redis/redis.go:40-95 | validation, then the command sequence on text keys; makes the store's creation step, with the error and no effect when the block fails |
| SessionCache.SessionCache.Get | internal/repository/redis/redis.go:97-137 | the lookup makes the store's lookup step; its lazy deletion may fail unnoticed, a failing GET is an error |
| SessionCache.SessionCache.Delete | internal/repository/redis/redis.go:278-335 | deletion makes the store's deletion step, or fails without effect |
| SessionCache.SessionCache.Rotate | internal/repository/redis/redis.go:139-276 | the retry loop, with rivals changing the keyspace or a command failing at any attempt, makes the raced rotation step |
| SessionCache.SessionCache.DeleteAllForUser | internal/repository/redis/redis.go:337-390 | collecting members, building keys and deleting them makes the store's mass deletion step, or fails without effect |
| SessionCache.UnracedIsAtomic | internal/repository/redis/redis.go:177-263 | without rivals the loop is the atomic rotation |
| SessionCache.AloneIsAtomic | internal/repository/redis/redis.go:177-263 | without rivals, and with the first command failing or not, the loop is the atomic rotation or has no effect |
| SessionCache.GivesUpIff | internal/repository/redis/redis.go:177-275 | the loop ends with an internal error exactly when an attempt that is reached meets a failing command, or three rivals in a row changed the session and the first two left the refresh id unspent |
| SessionCache.SpentIdEndsLoop | internal/repository/redis/redis.go:205-263 | a rival that spends the id ends the loop at the second GET, with ErrInvalidToken if that answers, and its own keyspace stands |
| RedisKeys.KeyLayout | internal/repository/redis/redis.go:596-606 | session keys and index keys never coincide and each id has its own |
| RedisKeys.Load | internal/repository/redis/redis.go:596-606 | the text keyspace splits into session cells and index sets |
| RedisKeys.ViewIsUnique | internal/repository/redis/redis.go:596-606 | that split is unique, so the view is a function of the keyspace |
| SessionStore.OperationsKeepIndex | internal/repository/redis/redis.go:40-390 | after each operation every unexpired session is in its user's index set, which outlives it, and every unexpired member belongs to that user |
| SessionStore.TimeKeepsIndex | internal/repository/redis/redis.go:72-82 | the passing of time keeps that coverage |
| SessionStore.DeleteAllIsExact | internal/repository/redis/redis.go:337-390 | a mass deletion removes exactly the user's sessions and leaves all others as they were |
| SessionStore.CreateIsExact | internal/repository/redis/redis.go:40-95 | a session without one of its four ids, or without time to live, is refused; any other is shown and listed for its time to live, and nothing else changes in what is shown or listed at any later time |
| SessionStore.RotateIsExact | internal/repository/redis/redis.go:139-276 | a rotation stores exactly when the key shows the presented refresh id and the same user, with each refusal's error |
| SessionStore.DeleteIsExact | internal/repository/redis/redis.go:278-335 | a deletion takes one session and its one listing, and nothing else |
| SessionStore.GetIsExact | internal/repository/redis/redis.go:97-137 | what a lookup answers in each case, and that it deletes exactly a session past its expiry |
| SimpleStore.StepSimulates | tests/auth_test.go:245-356 | the indexed store and the scanning map answer alike, up to the kind of error, if and only if the request does not rotate, with its own refresh id and user, a session the map has and Redis has dropped |
| SimpleStore.RunSimulates | tests/auth_test.go:245-356 | over a run of requests as the service makes them, all replies are alike if and only if no request rotates a dropped session |
| SimpleStore.RunInTimeSimulates | tests/auth_test.go:245-356 | so the two cannot be told apart while sessions are rotated before they expire |
| SimpleStore.DroppedIsExpired | tests/auth_test.go:294-322 | a session that the map has and Redis has dropped is past its expiry |
| SimpleStore.DroppedRotationDiffers | tests/auth_test.go:294-322 | one rotation that the map accepts and Redis refuses |
| Effects.LoginSucceedsIff | internal/service/user_service.go:364-427 | a login succeeds exactly for the normalized address and the password of an active account while the user lookup and the storing of the session answer |
| Effects.RefreshSucceedsIff | internal/service/user_service.go:445-517 | a refresh succeeds exactly when its token validates, its account is active under the id it names, and Redis still holds the session when the new pair is stored |
| Effects.LogoutEnds | internal/service/user_service.go:519-549 | a logout took an access token, ends that session and leaves every other as it was |
| Effects.LogoutAllEnds | internal/service/user_service.go:551-580 | logging out everywhere took an access token, ends exactly the sessions of its user |
| Effects.WrongTypeIsRefused | internal/service/user_service.go:594-600 | a refresh never takes an access token, a logout never a refresh token, and nothing changes |
| Answers.ValidatesIff | internal/service/user_service.go:582-709 | validation accepts exactly issued tokens within the window and leeway, with all required claims, whose stored session is live, unexpired and agrees in user, address, roles and token id |
| Answers.TokenCallAnswers | internal/service/user_service.go:429-580 | what validation and the two logouts answer in each case, errors included |
| Answers.LoginAnswers | internal/service/user_service.go:364-427 | ErrForbidden exactly for a suspended account's address and password, an internal error exactly when only the store is in the way, ErrInvalidPassword otherwise |
| Answers.RefreshAnswers | internal/service/user_service.go:445-517 | ErrForbidden exactly for a suspended account's acceptable refresh token, an internal error exactly when only the store is in the way, ErrInvalidToken otherwise |
| Answers.RegistrationAnswers | internal/repository/user_repository.go:24-72 | which of invalid input, failing hash or tables, clash and missing role a refused registration is answered with |
| Answers.UpdateAnswers | internal/service/user_service.go:168-215 | an update succeeds exactly for a present user and a phone number that no other row holds, with the error of each refusal |
| Answers.DeletionAnswers | internal/service/user_service.go:217-244 | a deletion by any spelling of the id marks exactly that present row, with the error of each refusal |
| Answers.AssignmentAnswers | internal/service/user_service.go:307-335 | an assignment by any spelling of id and role: its answer, the row it returns and the one name it adds, or the error of each refusal |
| Answers.RevocationAnswers | internal/service/user_service.go:337-362 | the same for a revocation |
| Answers.OutageKeeps | internal/service/user_service.go:217-647 | a store that cannot change is not changed by any call, nor are tables that cannot, and a failing session lookup refuses a token without effect |
| Effects.AssignAddsName | internal/repository/user_repository.go:275-322 | assigning succeeds exactly for a present user without that role and an active role; it adds that one name and changes nobody else's; each refusal has its own error |
| Effects.RevokeRemovesName | internal/repository/user_repository.go:324-357 | revoking succeeds exactly for a present user with that role; it removes that one name and changes nobody else's; each refusal has its own error |
| Effects.RoleChangeSucceedsIff | internal/service/user_service.go:307-362 | a role change is answered with the account exactly when the tables accept it and every command answers; the tables change exactly when they accept it and neither the revocation nor the transaction failed, also if the answer is then lost |
| Effects.LostAnswerChangesTables | internal/service/user_service.go:326-334 | one such call: it is answered with an error and the grant is there |
| Effects.RegistrationSucceedsIff | internal/service/user_service.go:70-128 | registration succeeds exactly with a free address and phone, a password of 8 to 72 bytes and the default role on offer; it adds one active account with the given names and phone, whose only role is customer |
| Effects.DeletionRemoves | internal/service/user_service.go:217-244 | deleting by the stored id hides the account from lookups, ends exactly its sessions and leaves all other rows and sessions alone |
| Effects.UpdateChangesNamesOnly | internal/service/user_service.go:168-215 | an update replaces the given names and phone of one row and nothing else |
| Agreement.CacheAgreesWithTables | internal/service/user_service.go:217-244 | after any canonical run with failures anywhere, every accepted token names a present, active user with that user's current email and sorted role names |
| Agreement.ApplyKeeps | internal/service/user_service.go:307-362 | each call keeps the agreement of sessions and tables |
| Agreement.RevocationKeeps | internal/service/user_service.go:307-335 | revoking sessions before a change of one user keeps the agreement, also when the change fails |
| StaleTokens.NeverStaleIffCanonical | internal/service/user_service.go:320-335 | a deletion or role change never leaves a stale token behind, whatever ran before, if and only if it spells the id as stored or in no accepted way |
| StaleTokens.OtherSpellingFails | internal/repository/user_mapper.go:89-96 | for every other accepted spelling there is a run after which the user's token survives the change |
| StaleTokens.ShoutedIdLeavesStaleTokens | internal/service/user_service.go:307-335 | one concrete such id, with a capital letter |
| Accounts.TablesStayOkOverRuns | internal/repository/user_repository.go:24-72 | emails stay normalized and unique over all rows, deleted ones included, and grants refer to existing rows, through any run |
| Accounts.FailureChangesTablesIff | internal/service/user_service.go:307-362 | a failed call shows no session that was not there, and it has changed the tables if and only if it is a role change that they accepted and whose final lookup failed |
| Accounts.DeletedEmailIsBurnt | internal/repository/user_repository.go:226-251 | once an account is deleted no run lets its email log in or register again |
| Accounts.GoneStaysOverRuns | internal/repository/user_repository.go:183-251 | a deleted row stays deleted and keeps its email |
| Accounts.StoredPair | internal/service/user_service.go:582-647 | the two tokens of a stored session validate to it, each only as its own type, exactly while their windows are open |
| Accounts.LoginRoundTrip | internal/service/user_service.go:711-818 | a login's tokens carry the user's id, email and sorted role names, and validate exactly within their windows |
| Accounts.RefreshRoundTrip | internal/service/user_service.go:445-517 | a refresh's tokens carry the user's present data and the same session, and the presented token is refused from then on |
| SessionLineage.SessionsContinue | internal/service/user_service.go:470-488 | over any run of calls a session found before and after keeps id, user and creation time, its expiry does not move back, and one that is gone stays gone |
| SessionLineage.LoginStores | internal/service/user_service.go:388-417 | a login stores one session with the account's data, created at the time of the call and expiring one refresh lifetime later, and signs its two tokens |
| SessionLineage.RefreshStores | internal/service/user_service.go:470-488 | a refresh stores the same session with its creation time, the account's present data, two new token ids, and an expiry one refresh lifetime after the call |
| UserService.UserService.Authenticate | internal/service/user_service.go:364-427 | the login sequence makes the service's login step and returns that step's pair with the account as stored, or its error |
| UserService.UserService.RefreshToken | internal/service/user_service.go:445-517 | the refresh sequence makes the service's refresh step |
| UserService.UserService.ValidateSession | internal/service/user_service.go:582-647 | the checks in order decide as the model's validation does and only expired sessions are deleted |
| UserService.UserService.ValidateToken | internal/service/user_service.go:429-443 | validation returns the claims exactly when the model accepts them |
| UserService.UserService.IssueTokenPair | internal/service/user_service.go:711-774 | mints one session and its two tokens for the row the user shows |
| UserService.UserService.Logout | internal/service/user_service.go:519-549 | makes the service's logout step |
| UserService.UserService.LogoutAll | internal/service/user_service.go:551-580 | makes the service's logout-everywhere step |
| UserService.UserService.DeleteUser | internal/service/user_service.go:217-244 | sessions first, then the row; makes the service's deletion step |
| UserService.UserService.AssignRole | internal/service/user_service.go:307-335 | sessions first, then the grant, then the user is read back, with any of the three failing; makes the service's step |
| UserService.UserService.RevokeRole | internal/service/user_service.go:337-362 | sessions first, then the grant's removal, then the user is read back, with any of the three failing; makes the service's step |
| UserService.UserService.CreateUser | internal/service/user_service.go:70-128 | normalizes, checks the password's length in bytes, fails beyond what the hash takes, registers with the default role; makes the service's step |
| UserService.UserService.UpdateUser | internal/service/user_service.go:168-215 | overlays the given fields on the stored row; makes the service's step |
| UserService.UserService.ListUsers | internal/service/user_service.go:246-279 | returns the users of the model's page in order, none deleted and each of the status asked for, with a total of all present rows of that status |
| UserRepository.UserRepository.Create | internal/repository/user_repository.go:24-72 | the transaction inserts row and grants or, on a clash or a missing role, leaves everything as it was |
| UserRepository.UserRepository.GetByID | internal/repository/user_repository.go:74-100 | finds the row an id in any accepted spelling names, with its roles in some order |
| UserRepository.UserRepository.GetByEmail | internal/repository/user_repository.go:102-123 | finds the undeleted row of an address |
| UserRepository.UserRepository.List | internal/repository/user_repository.go:125-181 | returns the page's users in the query's order, none deleted and each of the status asked for, and the number of all present rows of that status |
| UserRepository.UserRepository.Update | internal/repository/user_repository.go:183-224 | rewrites one present row that clashes with no other and leaves all else; any error leaves everything |
| UserRepository.UserRepository.Delete | internal/repository/user_repository.go:226-251 | marks one present row deleted and inactive and leaves all other rows and the grants |
| UserRepository.UserRepository.AssignRole | internal/repository/user_repository.go:275-322 | adds one grant of an active role that was not there and leaves all else, or reports which of user, role or novelty is missing |
| UserRepository.UserRepository.RevokeRole | internal/repository/user_repository.go:324-357 | removes one grant that was there and leaves all else, or reports what is missing |
| UserRepository.UserRepository.PreloadRoles | internal/repository/user_mapper.go:44-75 | yields each granted, undeleted role once |
| UserTable.CreateKeepsTable | internal/models/user.go:10-27 | registration keeps ids canonical and addresses and phone numbers unique |
| UserTable.UpdateKeepsTable | internal/repository/user_repository.go:183-224 | so does an update |
| UserTable.DeleteKeepsTable | internal/repository/user_repository.go:226-251 | so does a deletion |
| UserTable.GrantsKeepTable | internal/repository/user_repository.go:275-357 | so do role changes |
| UserTable.ShownRoleNames | internal/service/user_service.go:852-863 | however the roles were loaded, a token minted for the user carries the same names |
| UserTable.RowShowsUser | internal/repository/user_mapper.go:12-75 | the record made of a user shows the same user again, field by field |
| Roles.ComputeRoleNames | internal/service/user_service.go:852-863 | collects exactly the non-empty names, in lexical order: a prefix first, else the smaller first differing character |
| Roles.BeforeIff | internal/service/user_service.go:852-863 | the comparison used for sorting is that lexical order |
| Roles.RoleNamesIgnoreOrder | internal/service/user_service.go:852-863 | the list does not depend on the order of the roles |
| Roles.SortedIsUnique | internal/service/user_service.go:852-863 | a list has one sorted arrangement |
| Roles.SortStringsSorts | internal/service/user_service.go:852-863 | sorting gives a permutation in lexical order |
| Text.NormalizeEmailIsStable | internal/service/user_service.go:820-826 | normalizing is idempotent, keeps the trimmed text character by character in lower case, and leaves a trimmed address, whatever the lower-case mapping of letters outside ASCII |
| Text.TrimSpaceTakesEnds | internal/service/user_service.go:820-826 | trimming takes white space from both ends, all of it and nothing else |
| Text.LowerAsciiMaps | internal/repository/user_mapper.go:89-96 | exactly the 26 capital letters become their small ones |
| Text.BytesAndCharacters | internal/service/user_service.go:83-89 | a length in bytes is the number of characters exactly for ASCII text, and at most four times it |
| Text.ParsedIdIsCanonical | internal/repository/user_mapper.go:89-96 | a parsed id is the fixed point of parsing and of trimming |
| Text.AcceptedIsAscii | internal/repository/user_mapper.go:89-96 | every accepted spelling is ASCII text of 32, 36, 38 or 45 bytes |
| Text.ParsesIffSpells | internal/repository/user_mapper.go:89-96 | a text is accepted for an id exactly when it is the id's digits in any case, alone, behind the URN prefix, between two bytes, or without hyphens |
| Text.LayoutIsGroups | internal/repository/user_mapper.go:89-96 | the digits are five groups of 8, 4, 4, 4 and 12 with a hyphen in between |
| Text.WidthIsShortest | internal/service/user_service.go:83-89 | a character counts as the bytes of the shortest form that carries it |
| Text.BytesDiffer | internal/service/user_service.go:83-101 | a password of four characters that is long enough, and one of nineteen that is too long |
| PageCount.PageCountExact | internal/service/user_service.go:269-275 | for every total up to 2^53 the rounded quotient's Ceil is the exact number of pages |
| PageCount.PageLost | internal/service/user_service.go:269-275 | at 2^53 + 1 users, one a page, a page is lost |
| PageCount.PageCountRightIff | internal/service/user_service.go:269-275 | the count is right for all totals up to a bound if and only if the bound is at most 2^53 |
| PageCount.ScaledCeil | internal/service/user_service.go:269-275 | rounding with enough bits cannot carry a quotient across an integer |
| PageCount.QuotientIsRounded | internal/service/user_service.go:269-275 | the quotient is the exact one scaled to a 53-bit mantissa and rounded |
| PageCount.RoundIsNearestEven | internal/service/user_service.go:269-275 | rounding gives a nearest integer, the even one of two |
| Paging.ClampIsStable | internal/repository/user_repository.go:129-137 | page numbers below 1 become 1, page sizes outside 1 to 100 become 20, all else stays; so service and repository clamp to the same page |
| Paging.ListingAnswers | internal/service/user_service.go:246-279 | a listing is refused exactly for an unknown status, and else echoes the clamped page and counts pages and all rows |
| Paging.PagesPartition | internal/repository/user_repository.go:154-174 | without ties the announced pages, each from its own query, show every matching user once, newest first |
| Paging.TieRepeatsUser | internal/repository/user_repository.go:154-174 | with a tie there are query results for which one user is shown twice and another never |
| Paging.PagesPartitionIff | internal/repository/user_repository.go:154-174 | pages always partition the listing if and only if creation times are distinct |
| Paging.PageWithinTotalIff | internal/repository/user_repository.go:160-163 | for all 64-bit page numbers up to a bound a page is non-empty exactly when its number is announced, if and only if the listing is empty or no offset up to the bound overflows; with one user a page none does |
| Paging.OverflowRestarts | internal/server/http/handler/user_dto.go:33-45 | the first page number whose offset overflows shows the first page again, and a request can carry it exactly when pages hold two users or more |
| Readiness.Checker.Check | internal/health/checker.go:44-105 | for every order of answers and any timeout the report covers every name, each as its last answer says and as down without one, and is ready when all answered and are up |
| Readiness.ReadyIff | internal/health/checker.go:78-102 | the report is ready exactly when every dependency answered in time and its check succeeded; a nil check never does |
| Readiness.ReportIsFaithfulIff | internal/health/checker.go:62-105 | entries tell the truth and the status agrees with them, for all outcomes and orders, if and only if names are distinct |
| Readiness.ReportedOrOutstanding | internal/health/checker.go:62-104 | in every state of every run the reported names and those of senders not yet read make up all names |
| Readiness.PartitionIff | internal/health/checker.go:62-104 | throughout every run the two have no name in common, if and only if names are distinct |
| Readiness.SendersNeverBlock | internal/health/checker.go:62-80 | in any interleaving, also after the collector has returned, no sender waits for room, and none is read twice |
| Readiness.EveryArrivalHappens | internal/health/checker.go:62-80 | any order of answers cut off anywhere is what the collector reads in some run |
| Bearer.ParsesExactlyCredentials | internal/auth/context.go:63-88 | a header yields a token exactly when it is the scheme in any case, white space and that one token, with white space around |

## Left out

- gRPC and HTTP servers, handlers, DTO copying, middleware, logging, metrics, tracing, start-up and shutdown: plumbing.
- bcrypt, HMAC, JWT and UUID encodings: idealised as stated under Premises; that bcrypt compares at most 72 bytes of a password at login is not modelled.
- JSON encoding of sessions: lossless for these fields, with nil and empty role lists equal; undecodable payloads do not occur.
- Redis network faults with unknown outcome, client retries, failover, and clock skew between hosts.
- Rounding of sub-second lifetimes by the Redis client: deadlines are exact in the model.
- SQL and GORM internals: a transaction is one atomic change of the tables under their unique indexes.
- Interleaving of profile updates and registrations with session commands: at command level they are seen only through what user lookups return; role writes and deletions are modelled after a finished sweep of their user.
- Strings that are not valid UTF-8: texts are sequences of characters.
- Seeding of roles and demo users, and role changes at start-up: they only choose the initial tables.
- The cached user profile: the service shown never reads or writes it.
- GetUser, GetUserByEmail, ListRoles and GetUserRoles: single lookups that add no property of their own.
- HasAnyRole, Claims, RequireClaims and WithClaims: a membership test and context accessors.
- UserService.UserService.UpdateUser: the roles in the returned value are not modelled, because the mapper drops them; the stored row is.
- UserService.UserService.ListUsers: the count and the page query see one state of the tables; writes between them are not modelled.
- UserService.UserService.RefreshToken: one clock reading per call before the delay between minting and storing; time passing between the other commands of one call is modelled at command level only.
- SessionCache.SessionCache.Rotate: rivals that change the watched key are given as keyspaces; interleaving command by command is the subject of the protocol model.
- SessionCache.SessionCache.Create: a nil session pointer is not modelled; sessions are values.
- Readiness.Checker.Check: the checks themselves, the context they receive and the timeout's value are replaced by the list of answers read in time.
