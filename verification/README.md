# Exam platform: verified models of its stateful cores

This project models the parts of the exam platform's API whose guarantees hold over whole
runs, and proves those guarantees. Each part is a transition system written as functions on
a state, with its theorems stated over every run. Where the service changes fields in place
there is also a class whose methods do the same step by step and are proved against those
functions.

- `AdmissionScheduler`, `CodeRunner`: the code runner's admission control. Two slots, one run
  in flight per candidate, a bounded queue with timers, an out-of-order dispatch loop and a
  rate window with garbage collection. `FixedWindow` is the limiter that never forgets, which
  the real ones are compared with; `Counting` counts states.
- `Judge`, `Scoring`: the judge loop under its deadline, the verdict and its score.
- `PasswordKdf`: the semaphore in front of key derivation.
- `AccountLockout`: the failed-login counter and the lock.
- `SessionRegistry`, `SessionExpiry`, `ProctorGateway`, `AuthSessions`: sessions with two expiry
  clocks and one timer each, what the timers do, the index from session tokens to admin sockets, and the two wired together.
- `RequestRateLimiter`: two buckets per request in an insertion-ordered map that evicts.
  `RateLimits` says what it promises for one key and when, `RateLimitsEviction` what happens
  otherwise.
- `KeyedLists`, `ProctorDevices`, `ExamSessions`, `PlatformStore` (with `Gate`, `Runs`,
  `History`, `Devices`, `Permission`, `Termination`, `Answers` and `Service`): the in-memory store behind a
  candidate's exam. `Service` is the class; its fields are those of the machine after the calls
  so far, so the theorems over runs hold of it.
- `CompetencyReport`: the risk score and the fallback report. `ReportWindow` is the report on the
  newest fifty events, which is what the database gives.
- `OrganizationInvitations`: accepting an invitation after a stale read.

Conventions. Time is an integer number of milliseconds handed to each step. A synchronous
stretch of code is one atomic step; so is each whole call of the in-memory store, each whole
gateway handler, and each database transaction. Fresh identifiers and tokens are unique.
Whether a password matches, what the container answers for a test, what the identity provider
decides and whether evidence or consent is in order are parameters of the steps. A step that is
not enabled in a state (a timer that is not armed, a run that is not running) does not happen.

Where a claim one might expect is false of the code, the exact condition is proved instead.

- A key's limits can be passed once the limiter evicts the key's own live bucket, which happens
  exactly when the live buckets fill the map and the key's is not among the newest
  (`DropsExactlyIf`). As long as it does not happen both limits hold, whatever happens to other
  keys (`LimitsHold`), and the limiter judges the key by its true window exactly as long as it does
  not (`JudgedTrulyExactlyIfKept`). Once it does, a burst of as many requests as the limit allows
  passes more than the limit in one window (`DropBreaksTheLimit`). Ten thousand addresses at one
  time bring it about (`TheLimitCanBePassed`).
- A session set after it has expired, but before its timer fired, keeps its old creation time.
  `OverdueSetIsReachable` and `OverdueByAMoment` give runs, the second with every timer but the
  last on time. The registry agrees with the timer-free specification
  throughout a run exactly if no such `set` occurs (`AgreesThroughoutExactlyIfNoOverdueSet`),
  however late the timers are otherwise.
- The memory path of the heartbeat sweep treats a missing heartbeat as time 0 and the database
  query never selects one. `SelectsLikeTheDatabase` gives the exact condition for agreement, and
  the store's invariant provides it.
- Further proctoring events can lower a candidate's risk and raise their report, because the
  database path takes only the newest fifty events. They lower the risk exactly if they weigh less
  than what they push out (`RiskFallsExactlyIf`, `OneEventLowersRiskExactlyIf`), and they raise no
  report, whatever the other signals, exactly if the events then taken add no more to it than those
  taken before (`NeverRaisedExactlyIf`). `TheReportCanRise` is a log. On the whole log, which the
  in-memory store takes, they never raise it (`EventsNeverRaiseTheReport`).
- Terminating an exam is not permanent: only the last blocking action counts
  (`ActionsAreARegister`), so a later resume opens the exam again whenever everything else still
  allows it (`ResumeReopensATerminatedExam`; `ATerminatedExamReopens` is a run).
- Rounding alone could turn a partial result into full marks: a score is 100 when at most one test
  in two hundred fails (`ScoreExtremes`). The cap of fifty tests rules this out (`VerdictScore`).

## Model

| member | source | states |
|---|---|---|
| AdmissionScheduler.RunKeepsInv | apps/api/src/services/code-runner.service.ts:133-178 | Every run keeps the whole invariant: slots in use are the active keys, each active key has exactly one run in flight, queue, timers and queued submissions are the same runs in order, and a free slot means every queued run waits for its own key |
| AdmissionScheduler.PerKeyFifo | apps/api/src/services/code-runner.service.ts:133-178 | On every run the runs of one key start in the order they were submitted, although dispatch picks from the middle of the queue |
| AdmissionScheduler.NoBarging | apps/api/src/services/code-runner.service.ts:135-137 | No started run has overtaken a run of its key that still waits, in particular not one that took a free slot on submission |
| AdmissionScheduler.WorkConserving | apps/api/src/services/code-runner.service.ts:158-178 | Slots in use equal the active keys and are at most 2, at most 8 runs wait, no waiting run could start, and something runs whenever something waits |
| AdmissionScheduler.SubmissionOutcome | apps/api/src/services/code-runner.service.ts:133-156 | After any run a submission starts at once exactly if it is within its rate, a slot is free and no run of its key is running or waiting; it is refused for a full queue exactly if it cannot start and 8 wait; otherwise it goes to the queue's end with its timer due 5,000 ms later |
| AdmissionScheduler.CompletionStartsAtMostOne | apps/api/src/services/code-runner.service.ts:170-178 | The dispatch loop after a completion starts exactly the first queued run whose key is inactive, or nothing |
| AdmissionScheduler.Dispatch | apps/api/src/services/code-runner.service.ts:170-178 | The loop ends, and ends with no slot free for a queued run |
| AdmissionScheduler.Conservation | apps/api/src/services/code-runner.service.ts:133-192 | At every time the submissions made are exactly those rate-rejected, turned away by the full queue, queued, timed out, running and finished, and the last two groups are the real queue and slots |
| AdmissionScheduler.SettlementIsFinal | apps/api/src/services/code-runner.service.ts:133-178 | However a run goes on, a settled submission keeps its outcome and others move only forward |
| AdmissionScheduler.NeverTimedOutAndRun | apps/api/src/services/code-runner.service.ts:147-151 | A submission that timed out in the queue is never started |
| AdmissionScheduler.QueuedKeepsItsTimer | apps/api/src/services/code-runner.service.ts:147-151 | However a run goes on, a submission that is still queued has the timer it was queued with |
| AdmissionScheduler.LoadIsBounded | apps/api/src/services/code-runner.service.ts:133-178 | At most ten runs wait or run, and while there is any, one of them can complete |
| AdmissionScheduler.Drains | apps/api/src/services/code-runner.service.ts:158-178 | Without new submissions each step that happens lowers queued plus running by one, so at most ten happen |
| FixedWindow.CountIsHitsInWindow | apps/api/src/services/code-runner.service.ts:180-186 | The stored count is the number of hits on the key in the stored window |
| FixedWindow.PassesIffWindowNotFull | apps/api/src/services/code-runner.service.ts:183-186 | A hit passes exactly if fewer than the limit fell into its window before it |
| FixedWindow.AtMostLimitPerWindow | apps/api/src/services/login-rate-limiter.ts:39-45 | A window passes at most the limit |
| FixedWindow.AtMostTwiceTheLimit | apps/api/src/services/login-rate-limiter.ts:39-45 | Any half-open interval of 60 seconds passes at most twice the limit, though it may touch two windows |
| FixedWindow.CurrentIs | apps/api/src/services/login-rate-limiter.ts:39-45 | A hit is counted in the key's window while that is open; otherwise it begins one of 60,000 ms |
| CodeRunner.GarbageCollectionIsInvisible | apps/api/src/services/code-runner.service.ts:180-192 | On every request sequence the service, which sweeps expired windows above 10,000 keys, decides as a limiter that never deletes: admitted exactly if fewer than six hits on the key share its window |
| CodeRunner.AtMostTwelvePerMinute | apps/api/src/services/code-runner.service.ts:180-192 | One candidate has at most 12 requests admitted in any 60 seconds |
| CodeRunner.SweptAboveTenThousand | apps/api/src/services/code-runner.service.ts:187-191 | A request leaves no closed window behind if it is admitted and more than 10,000 are tracked, and forgets none otherwise; an open window of anyone is never lost |
| CodeRunner.CodeRunnerService.WithAdmission | apps/api/src/services/code-runner.service.ts:133-156 | The fields after the call are those of the transition system after one more submission, the returned outcome is that submission's state, and it is the rate refusal exactly if the request is not admitted |
| CodeRunner.CodeRunnerService.AssertRequestRate | apps/api/src/services/code-runner.service.ts:180-192 | The window table and the decision, with a refused request skipping the sweep |
| CodeRunner.CodeRunnerService.SweepExpired | apps/api/src/services/code-runner.service.ts:187-191 | The sweep leaves exactly the unexpired windows |
| CodeRunner.CodeRunnerService.RunAdmitted | apps/api/src/services/code-runner.service.ts:158-160 | A run takes a slot and its key |
| CodeRunner.CodeRunnerService.FinishRun | apps/api/src/services/code-runner.service.ts:163-167 | A finished run gives its slot and key back and the queue is served: one more completion of the transition system, one run fewer waiting or running |
| CodeRunner.CodeRunnerService.DispatchQueuedRuns | apps/api/src/services/code-runner.service.ts:170-178 | The while loop over the fields computes the specified dispatch |
| CodeRunner.CodeRunnerService.QueueTimeout | apps/api/src/services/code-runner.service.ts:147-151 | The timer's callback is one timeout step, one run fewer waiting or running |
| Judge.RunTests | apps/api/src/services/code-runner.service.ts:84-101 | One result per test in order: a test reached with 8,000 ms or more left is run with 8,000, one with less with exactly what is left, one with nothing left is skipped; and the clock at the end |
| Judge.TestsAreTimed | apps/api/src/services/code-runner.service.ts:84-101 | The timeout of each test, and the clock after it, as numbers |
| Judge.FastProgramPasses | apps/api/src/services/code-runner.service.ts:84-101 | A program that needs no more than 600 ms for a test passes all of fifty |
| Judge.RejectedExactlyIf | apps/api/src/services/code-runner.service.ts:71-82 | A request is rejected exactly for blank code, more than 100,000 characters, more than fifty tests, or a language other than the four |
| Judge.SkippingIsFinal | apps/api/src/services/code-runner.service.ts:88-95 | Once a test is skipped every later one is, and no time passes |
| Judge.EndsByDeadline | apps/api/src/services/code-runner.service.ts:84-101 | If every run respects its timeout, every test is reached within 30,000 ms |
| Judge.JudgeAdmitted | apps/api/src/services/code-runner.service.ts:70-131 | Every verdict is coherent (counts, order, first error, success only if all passed); a rejected request fails every test, of which it reports at most fifty if code or tests are too large, and says why; an accepted one reports each test as the loop ran it, takes at most 30,000 ms, and passes all tests if each needs no more than 600 ms |
| Judge.Summarize | apps/api/src/services/code-runner.service.ts:103-130 | The verdict of a list of results is coherent and reports each result beside its test |
| Judge.Failed | apps/api/src/services/code-runner.service.ts:73-82 | An early refusal yields a coherent verdict in which no test passed and each has the error |
| Judge.VerdictScore | apps/api/src/services/platform-store.execution-scoring.ts:35-37 | For every verdict the judge can give, the score is in 0..100; with at least one test it is 100 exactly if all passed and 0 exactly if none did, and without tests 100 exactly on success |
| Scoring.RoundDiv | apps/api/src/services/platform-store.execution-scoring.ts:35-37 | The result is the nearest integer to the fraction, halves upward |
| Scoring.RoundDivUnique | apps/api/src/services/platform-store.execution-scoring.ts:35-37 | That bound determines it |
| Scoring.RoundDivMonotone | apps/api/src/services/ai-evaluation.service.ts:42-54 | Rounding keeps the order of any two fractions, whatever their denominators |
| Scoring.ScoreMonotoneInPassed | apps/api/src/services/platform-store.execution-scoring.ts:35-37 | More passed tests never lower the score |
| Scoring.ScoreExtremes | apps/api/src/services/platform-store.execution-scoring.ts:35-37 | The score is 100 exactly if at most one test in 200 fails and 0 exactly if fewer than one in 200 passes |
| PasswordKdf.StrictFifoWithoutBarging | apps/api/src/services/password-hash.ts:65-95 | On every run slots are granted in request order and never past a waiting request; slots in use are the granted, unreleased holders and at most 4; at most 16 wait, and only while all 4 are in use |
| PasswordKdf.AcquisitionOutcome | apps/api/src/services/password-hash.ts:65-86 | After any run a request takes a slot exactly if one of four is free, waits at the end of the queue with its timer due 5,000 ms later exactly if none is and fewer than 16 wait, and is refused otherwise |
| PasswordKdf.WaiterKeepsItsTimer | apps/api/src/services/password-hash.ts:77-86 | However a run goes on, a request that still waits has the timer it began to wait with |
| PasswordKdf.SettlementIsFinal | apps/api/src/services/password-hash.ts:65-95 | However the run goes on, a request only waits, then holds, then is released, or times out; a refused or timed out one never holds a slot |
| PasswordKdf.GrantedExactlyHolders | apps/api/src/services/password-hash.ts:88-95 | A slot was granted to exactly the requests that hold or have released one |
| PasswordKdf.RefusedExactlyBeyondCapacity | apps/api/src/services/password-hash.ts:65-86 | After any run, of n acquisitions with no release between exactly those beyond the places left are refused |
| PasswordKdf.RefusedFromIdle | apps/api/src/services/password-hash.ts:65-86 | From the idle state n acquisitions are refused exactly max(0, n - 20) times |
| PasswordKdf.KdfAdmission.Acquire | apps/api/src/services/password-hash.ts:65-86 | The module variables after the call are those of the transition system after one more acquisition, and the outcome is that request's state |
| PasswordKdf.KdfAdmission.Release | apps/api/src/services/password-hash.ts:88-95 | A release hands the slot to the head of the queue as the transition system does |
| PasswordKdf.KdfAdmission.OnTimeout | apps/api/src/services/password-hash.ts:77-81 | The timer's callback removes the waiter and refuses it |
| AccountLockout.RunKeepsRowInv | apps/api/src/services/auth.service.ts:296-337 | On every run of logins and password changes from (0, null): no lock means fewer than 5 failures, a lock means exactly 5 |
| AccountLockout.RowIsHistory | apps/api/src/services/auth.service.ts:296-337 | On every run the counter is the number of wrong passwords since the last success or the end of the last lock, and the account is locked until fifteen minutes after the fifth of them, and only then |
| AccountLockout.RightPasswordClears | apps/api/src/services/auth.service.ts:297-347 | After every run a login succeeds exactly with the right password while no lock lasts, and then leaves the row (0, null) |
| AccountLockout.LockHolds | apps/api/src/services/auth.service.ts:297-300 | While a lock lasts no login succeeds, with the right password either, and none changes the row |
| AccountLockout.AtMostFiveGuesses | apps/api/src/services/auth.service.ts:296-322 | Without a success or password change in between, any half-open interval of 15 minutes holds at most 5 counted wrong passwords |
| AccountLockout.UserRow.LoginTransaction | apps/api/src/services/auth.service.ts:284-347 | The updates of one transaction, guarded by the row as first read, give the specified row and outcome; a success, after an expired lock too, leaves the counter 0 and no lock |
| AccountLockout.UserRow.LoginWithDatabase | apps/api/src/services/auth.service.ts:281-368 | Of three tries, each but the last tried again only if it conflicts, the one that decides is judged on the row as the transactions that others committed before it have left it; it takes effect once if it commits, and not at all if it throws or conflicts for the third time |
| AccountLockout.UserRow.ChangePassword | apps/api/src/services/auth.service.ts:216-237 | The right current password resets the row to (0, null); a wrong one changes nothing and is not counted |
| SessionRegistry.RunKeepsInv | apps/api/src/services/auth-session-registry.ts:29-82 | On every run each stored token has exactly one armed timer, due when the session expires (or already due when armed), and each armed timer a stored token |
| SessionRegistry.RevokedExactlyOnce | apps/api/src/services/auth-session-registry.ts:47-53 | On every run `onRevoked` has been called once for each lifetime that is over, however it ended, and not for a current one |
| SessionRegistry.RevokeUserIsExact | apps/api/src/services/auth-session-registry.ts:55-63 | `revokeUser` removes exactly that user's sessions, leaves the others as they are, and revokes exactly the removed lifetimes |
| SessionRegistry.CreatedAtIsFixed | apps/api/src/services/auth-session-registry.ts:29-45 | Within a lifetime the creation time never moves under any mix of calls |
| SessionRegistry.RefinesTimerFreeSpecification | apps/api/src/services/auth-session-registry.ts:29-82 | However late the timers fire, on every run without an overdue `set` and at every later time: a token is stored and unexpired exactly if its lifetime is younger than the absolute limit with every touch gap below the idle limit; `get` answers accordingly; and each stored token has one timer, due when it expires |
| SessionRegistry.StoredExactlyAliveOncePrompt | apps/api/src/services/auth-session-registry.ts:65-82 | Once due timers have fired, the stored tokens themselves are exactly the alive ones |
| SessionExpiry.TimerEndsExactlyTheExpired | apps/api/src/services/auth-session-registry.ts:73-82 | On every run, a timer that fires, early or late, ends exactly its session and revokes exactly that lifetime if one of the session's clocks has run out; otherwise only the timer is new, due at the session's end |
| SessionExpiry.FiringTheDueSettles | apps/api/src/services/auth-session-registry.ts:65-82 | From every reachable state, once each due timer has fired, in any order, no timer is due and exactly the expired sessions are gone |
| SessionExpiry.DueCanBeFired | apps/api/src/services/auth-session-registry.ts:65-82 | There is such an order from every reachable state, so the state in which no timer is due is always reached |
| SessionRegistry.AgreesThroughoutExactlyIfNoOverdueSet | apps/api/src/services/auth-session-registry.ts:29-82 | The registry agrees with that specification at every point of a run exactly if no `set` of the run finds an expired session whose timer has yet to fire |
| SessionRegistry.OverdueSetIsReachable | apps/api/src/services/auth-session-registry.ts:41-45 | A run with such a `set`: the session set anew at its absolute limit is stored with its old creation time and unusable at once |
| SessionRegistry.OverdueByAMoment | apps/api/src/services/auth-session-registry.ts:29-71 | The same for a session kept in use until its absolute limit: no step before finds a timer due, and the last timer is due at the very time of the `set` |
| SessionRegistry.SetAgreesExactlyIfNotOverdue | apps/api/src/services/auth-session-registry.ts:41-45 | One `set` agrees exactly if it does not find such a session |
| ProctorGateway.JoinAdminKeepsIndex | apps/api/src/modules/proctor.gateway.ts:93-105 | A join, also a second one with another token, keeps the index equal to the connected admin sockets by token |
| ProctorGateway.LeaveKeepsIndex | apps/api/src/modules/proctor.gateway.ts:149-151 | So does a disconnect |
| ProctorGateway.JoinCandidateKeepsIndex | apps/api/src/modules/proctor.gateway.ts:107-122 | So does a candidate join, which leaves an earlier admin token tracked |
| ProctorGateway.RevocationFansOut | apps/api/src/modules/proctor.gateway.ts:256-265 | Revoking tokens disconnects every connected socket that joined with one of them and changes no other socket |
| ProctorGateway.DisconnectOneMore | apps/api/src/modules/proctor.gateway.ts:256-265 | Disconnecting token by token is disconnecting all of them at once |
| ProctorGateway.Gateway.HandleConnection | apps/api/src/modules/proctor.gateway.ts:80-80 | A new socket is connected and tracked nowhere |
| ProctorGateway.Gateway.JoinAdmin | apps/api/src/modules/proctor.gateway.ts:93-105 | Untracking, setting the socket's data and tracking keep index and sockets in agreement |
| ProctorGateway.Gateway.JoinCandidate | apps/api/src/modules/proctor.gateway.ts:107-122 | The socket's data become the candidate's; the index stays |
| ProctorGateway.Gateway.HandleDisconnect | apps/api/src/modules/proctor.gateway.ts:149-153 | The socket is untracked |
| ProctorGateway.Gateway.TrackAdminClient | apps/api/src/modules/proctor.gateway.ts:231-239 | The socket is added to its token's set |
| ProctorGateway.Gateway.UntrackAdminClient | apps/api/src/modules/proctor.gateway.ts:241-254 | The socket is taken out of its token's set, and an empty set out of the index |
| ProctorGateway.Gateway.DisconnectAdminClients | apps/api/src/modules/proctor.gateway.ts:256-265 | The loop disconnects exactly the token's sockets and drops the token |
| AuthSessions.NoSocketOutlivesItsSession | apps/api/src/modules/proctor.gateway.ts:90-105 | On every run of whole handlers and registry calls, the index is right and a connected admin socket's session is still stored |
| AuthSessions.RevokingAUserFansOut | apps/api/src/services/auth.service.ts:266-279 | Revoking a user disconnects exactly the admin sockets of that user's sessions |
| AuthSessions.EndedSessionsFanOut | apps/api/src/modules/proctor.gateway.ts:256-265 | Whatever ends sessions, a call or a timer, the sockets disconnected are exactly those of sessions stored before and not after |
| AuthSessions.RelayedExactlyIf | apps/api/src/modules/proctor.gateway.ts:202-229 | A message is relayed exactly if the socket is an admin's, of that exam, and its session is stored, unexpired and usable, or a candidate's with exactly that exam, candidate and device |
| AuthSessions.RelaysExactlyAsJoined | apps/api/src/modules/proctor.gateway.ts:86-229 | On every run a socket relays exactly for the exam, candidate and device of its last accepted join, or as an admin for the exam it last joined while that session is active |
| AuthSessions.RevokedUserRelaysNothing | apps/api/src/modules/proctor.gateway.ts:202-229 | After a user is revoked, and whatever happens next except setting the token anew, no socket that carries one of their tokens as an admin relays anything, at any time and for any account |
| AuthSessions.RequireActiveExactlyIf | apps/api/src/services/auth.service.ts:155-214 | A session is accepted exactly if it is stored, neither of its clocks has run out, its account is active and no password change is pending; one found expired or without an account is removed, a stale password is marked, and no other session changes |
| AuthSessions.AuthSessionRegistry.Get | apps/api/src/services/auth-session-registry.ts:29-39 | One step of the registry's transition system with its result, and the sockets of exactly the sessions that went are disconnected |
| AuthSessions.AuthSessionRegistry.Set | apps/api/src/services/auth-session-registry.ts:41-45 | The same for `set` |
| AuthSessions.AuthSessionRegistry.Delete | apps/api/src/services/auth-session-registry.ts:47-53 | The same for `delete`, which returns the session it removed |
| AuthSessions.AuthSessionRegistry.RevokeUser | apps/api/src/services/auth-session-registry.ts:55-63 | The loop that deletes while it iterates is one step; the returned list has exactly the user's sessions, one entry each |
| AuthSessions.AuthSessionRegistry.Expire | apps/api/src/services/auth-session-registry.ts:73-82 | A fired timer of an expired session deletes exactly it, revokes its lifetime and disconnects exactly its sockets; otherwise the sessions stay, with the timer armed again |
| AuthSessions.AuthSessionRegistry.StoreSession | apps/api/src/services/auth-session-registry.ts:65-71 | The previous timer is cleared and one timer armed; a new token begins a lifetime |
| RequestRateLimiter.EvictsLiveExactlyAtCapacity | apps/api/src/services/login-rate-limiter.ts:57-67 | A live bucket is evicted exactly if as many are live as the map may hold, and the newest live ones stay |
| RequestRateLimiter.SizeIsBounded | apps/api/src/services/login-rate-limiter.ts:27-67 | After every request the map holds at most its capacity plus one |
| RateLimits.KeptAgrees | apps/api/src/services/login-rate-limiter.ts:27-67 | While no live bucket is evicted the map is that of a limiter that never forgets, but for expired buckets |
| RateLimits.LimitsHold | apps/api/src/services/login-rate-limiter.ts:27-45 | As long as the key's own live bucket is not evicted, whatever happens to others: a window of a client or a subject passes at most its limit, and any 60 seconds at most twice the limit |
| RateLimits.ServiceLimits | apps/api/src/services/login-rate-limiter.ts:74-90 | The three limiters in numbers: in any 60 seconds at most 40, 24 and 12 requests of an address and 20, 12 and 6 on a subject, while their buckets are kept |
| RateLimits.DropsExactlyIf | apps/api/src/services/login-rate-limiter.ts:57-67 | A request evicts a key's live bucket exactly if the live buckets fill the map and the key's is not among the newest that stay |
| RateLimits.JudgedTrulyExactlyIfKept | apps/api/src/services/login-rate-limiter.ts:27-67 | On every run the limiter judges a key by its true window throughout exactly if its live bucket is never evicted |
| RateLimits.ClientRaisesAtMostItsLimit | apps/api/src/services/login-rate-limiter.ts:30-36 | In one client window the requests of a client whose bucket is kept raise the counts of all subjects together by at most the client limit |
| RateLimits.DecidesAsUnbounded | apps/api/src/services/login-rate-limiter.ts:27-67 | While no client's live bucket is evicted, every decision is that of a limiter that never forgets |
| RateLimitsEviction.DropBreaksTheLimit | apps/api/src/services/login-rate-limiter.ts:57-67 | Once a request on a key evicts its live bucket, as many such requests as the limit allows all pass, so that the window passes more than the limit |
| RateLimitsEviction.TheLimitCanBePassed | apps/api/src/services/login-rate-limiter.ts:27-67 | A run from the empty map in which a client passes its limit and one more in one window |
| RequestRateLimiter.Limiter.Consume | apps/api/src/services/login-rate-limiter.ts:27-37 | The map is that of the run with one more request; the request passes exactly if both buckets let it; else the wait is the remaining time of the bucket that refuses, in seconds, rounded up |
| RequestRateLimiter.Limiter.ConsumeBucket | apps/api/src/services/login-rate-limiter.ts:39-45 | The hit is counted, and refused exactly beyond the limit |
| RequestRateLimiter.Limiter.RemoveExpiredBuckets | apps/api/src/services/login-rate-limiter.ts:57-67 | Both loops end and leave what the specification leaves |
| RequestRateLimiter.Limiter.SweepExpired | apps/api/src/services/login-rate-limiter.ts:59-61 | Deleting while visiting in insertion order leaves exactly the live buckets in their order |
| KeyedLists.PutIsAKeyedUpdate | apps/api/src/services/platform-store.proctor.ts:108-128 | Prepending an entry and filtering out the old one by id updates one key of a map: the key has the new value and the old id, other keys what they had, ids and keys stay unique |
| ProctorDevices.UpsertIsAKeyedUpdate | apps/api/src/services/platform-store.proctor.ts:69-129 | A device stays unique per candidate, exam and role, a connected one has a heartbeat, and other devices are found as before |
| ProctorDevices.ReportChanges | apps/api/src/services/platform-store.proctor.ts:108-128 | What a report changes of a device and what it keeps: each time field, the status and the detail |
| ProctorDevices.SweepMarksExactlyTheStale | apps/api/src/services/platform-store.proctor.ts:169-184 | A sweep marks exactly the exam's connected devices whose heartbeat, or 0, is older than the timeout, as disconnected now and with "heartbeat missed", keeping the rest of them, and leaves the others as they are, although it matches them by id |
| ProctorDevices.SweepLogsEachMarkedDevice | apps/api/src/services/platform-store.proctor.ts:185-194 | One event per marked device, of the kind for its role, in front of the events there were |
| ProctorDevices.StaleInOrder | apps/api/src/services/platform-store.proctor.ts:169-172 | The devices marked are taken in the order of the list |
| ProctorDevices.SweepIsIdempotent | apps/api/src/services/platform-store.proctor.ts:131-196 | A second sweep at the same time changes nothing |
| ProctorDevices.SweepKeepsDevices | apps/api/src/services/platform-store.proctor.ts:169-184 | A sweep keeps keys unique and heartbeats recorded |
| ProctorDevices.SelectsLikeTheDatabase | apps/api/src/services/platform-store.proctor.ts:135-141 | Memory path and database query select the same devices exactly if no connected device of the exam lacks a heartbeat (or the bound is not positive) |
| ProctorDevices.SelectsLikeTheDatabaseWhenBeating | apps/api/src/services/platform-store.proctor.ts:169-172 | With the store's invariant they always do |
| ExamSessions.NewestFirstIsAStableSort | apps/api/src/services/platform-store.candidate-workspace.ts:165-169 | The sort is ordered, keeps the actions and keeps equally old ones in their order |
| ExamSessions.PrependedIsLatest | apps/api/src/services/platform-store.candidate-workspace.ts:165-169 | A blocking action prepended to a log it is no older than becomes the candidate's latest, ties included; any other action changes nothing for them |
| ExamSessions.OpenExactlyIf | apps/api/src/services/platform-store.candidate-workspace.ts:145-150 | The exam is open exactly if the latest blocking action is absent or a resume and a full second remains to the end, recorded or the duration from now; a termination and a pause are told as such |
| ExamSessions.SessionBeginsOnce | apps/api/src/services/platform-store.candidate-workspace.ts:203-219 | The session is the one there, or begins now and ends after the exam's duration; what remains of it is in whole seconds |
| ExamSessions.EnsureKeepsSessions | apps/api/src/services/platform-store.candidate-workspace.ts:203-219 | At most one session per candidate and exam, and the call finds it |
| ExamSessions.EnsureKeepsFound | apps/api/src/services/platform-store.candidate-workspace.ts:203-219 | Every session already there is found unchanged |
| PlatformStoreGate.ConnectedAfterSweepIsFresh | apps/api/src/services/platform-store.service.ts:119-123 | Because the sweep comes first and a device's exam is its candidate's, a mobile device is connected afterwards exactly if one had a fresh heartbeat before |
| PlatformStoreGate.WorkspaceOpensExactlyIf | apps/api/src/services/platform-store.state.ts:194-224 | The workspace opens exactly if, in the state before the call, the exam is neither ended nor deleted and has begun and not ended by its dates, entry is confirmed, the check passed, the verification too if required, and a mobile device is connected and fresh if required |
| PlatformStoreGate.NotInvitedIsRefused | apps/api/src/services/platform-store.candidate-portal.ts:81-89 | Without a candidate with the token and their exam the call is refused |
| PlatformStoreGate.QuestionFoundAgain | apps/api/src/services/platform-store.execution-access.ts:19-70 | A question that belongs to the invite is always found by the second lookup, and only then |
| PlatformStoreGate.LanguageRefusedExactlyIf | apps/api/src/services/platform-store.execution-access.ts:72-90 | A language can run exactly if it is JavaScript or Python under one of its names and the exam has it under one of its names |
| PlatformStoreGate.AdmittedExactlyIf | apps/api/src/services/platform-store.service.ts:237-256 | A draft or run is admitted exactly if gate, question, language and session allow it, and then only the sweep and the session have changed |
| PlatformStoreGate.SubmittedExactlyIf | apps/api/src/services/platform-store.service.ts:269-292 | A submission is accepted exactly if admitted and, for coding, the language can run and the runner takes it |
| PlatformStoreRuns.RunKeepsInv | apps/api/src/services/platform-store.service.ts:63-298 | Every run of seventeen kinds of call keeps devices, drafts and sessions unique by key and every device's exam its candidate's |
| PlatformStoreRuns.DeadlineIsFixed | apps/api/src/services/platform-store.candidate-workspace.ts:203-207 | Whatever happens after a session began, its recorded end never changes |
| PlatformStoreRuns.StoresOnlyItsOwn | apps/api/src/services/platform-store.service.ts:127-298 | A refused call stores nothing; an accepted one adds only to its own list |
| PlatformStoreHistory.StatusesAreARegister | apps/api/src/services/platform-store.candidate-portal.ts:124-133 | On every run a candidate's status is the last one given: invited when added, ready when entry was confirmed, in progress when an answer was submitted |
| PlatformStoreHistory.ChecksAreARegister | apps/api/src/services/platform-store.candidate-portal.ts:99-99 | On every run the check the gate reads is the last one the candidate had accepted |
| PlatformStoreHistory.VerificationsAreARegister | apps/api/src/services/platform-store.candidate-portal.ts:98-98 | The same for identity verifications |
| PlatformStoreHistory.DraftsAreARegister | apps/api/src/services/platform-store.execution.ts:85-96 | On every run the stored draft of a candidate, question and language is the code saved last, and there is none if none was saved |
| PlatformStoreHistory.ActionsAreARegister | apps/api/src/services/platform-store.candidate-admin.ts:96-104 | With time not running backwards, the action that blocks is the last pause, resume or terminate issued for the candidate, whatever else was issued |
| PlatformStoreDevices.HeartbeatsAreARegister | apps/api/src/services/platform-store.proctor.ts:108-128 | On every run a device's heartbeat is its last report of being connected, which sweeps and other reports leave |
| PlatformStoreDevices.DevicesFollowReports | apps/api/src/services/platform-store.proctor.ts:69-196 | On every run with time not running backwards, a device is recorded as it last reported, unless a sweep found its connected report older than the timeout, and is not recorded if it never reported |
| PlatformStoreDevices.ConnectedAndFreshExactlyIfLive | apps/api/src/services/platform-store.proctor.ts:131-196 | A device is recorded as connected with a fresh heartbeat exactly if its last report was of being connected and no older than the timeout |
| PlatformStoreHistory.SubmissionIsScored | apps/api/src/services/platform-store.execution.ts:168-243 | An accepted submission is stored once, in front, for its candidate and question, with its verdict's score for code, 100 for an essay, and 100 or 0 for another text answer as it matches or not |
| PlatformStoreHistory.CodingScoreIsExact | apps/api/src/services/platform-store.execution.ts:168-243 | For every verdict that judging can give, an accepted coding submission with tests scores 100 exactly if all its tests passed and 0 exactly if none did |
| PlatformStorePermission.AdmittedExactlyIfPermitted | apps/api/src/services/platform-store.service.ts:237-256 | On every run a draft or run is admitted exactly if what happened before permits it: exam window, entry confirmed, last check passed, last verification passed if required, a mobile device whose last report was of being connected and is no older than the timeout if required, not paused or terminated last, its question and language the exam's, a full second left |
| PlatformStorePermission.AcceptedWritesArePermitted | apps/api/src/services/platform-store.service.ts:237-298 | On every run each accepted draft, run or submission was permitted by what happened before it, falls within the exam's dates, and a full second before its session's recorded end |
| PlatformStoreTermination.ResumeReopensATerminatedExam | apps/api/src/services/platform-store.candidate-workspace.ts:145-150 | In every state that admits a write, terminating the exam refuses it and resuming after that admits it again |
| PlatformStoreTermination.ATerminatedExamReopens | apps/api/src/services/platform-store.candidate-workspace.ts:145-150 | A run of three calls from a seed that terminates and reopens an exam |
| PlatformStoreAnswers.SnapshotIs | apps/api/src/services/platform-store.candidate-portal.ts:81-100 | An invite is the token's candidate with their exam, not deleted, that exam's questions, and that candidate's devices, check and verification; otherwise the candidate or the exam is told to be missing |
| PlatformStoreAnswers.AcceptedExactlyIf | apps/api/src/services/platform-store.service.ts:110-298 | Each of the ten kinds of candidates' calls is accepted exactly if the exam is not deleted and what that call also asks is so: the evidence, the identity check enabled and its input in order, the gate, the session, question, language and runner |
| PlatformStoreAnswers.GateRefusesBecause | apps/api/src/services/platform-store.state.ts:194-224 | The gate's refusal names the first condition that fails |
| PlatformStoreAnswers.WriteRefusedBecause | apps/api/src/services/platform-store.service.ts:237-250 | Past the gate, so does the refusal of a write: question, language, proctor, time |
| PlatformStoreAnswers.ActedExactlyIf | apps/api/src/services/platform-store.candidate-admin.ts:66-105 | A proctor's action is taken exactly if there is such a candidate with an exam that is not deleted and the caller has access; it is then logged in front for that exam, and otherwise the first that fails is told |
| PlatformStoreAnswers.AcceptedIsRecorded | apps/api/src/services/platform-store.service.ts:127-292 | An accepted call is recorded for the candidate and exam it was answered for, at its time; a draft keeps when it was first saved |
| PlatformStoreAnswers.EventsAreKept | apps/api/src/services/platform-store.proctor.ts:50-68 | On every run no event is lost or changed: the log only grows in front |
| PlatformStoreAnswers.SessionsLastTheDuration | apps/api/src/services/platform-store.candidate-workspace.ts:203-219 | On every run each session was begun by one of its draft, run, submission or workspace calls, at its start, and ends after the duration its exam then had |
| PlatformStoreAnswers.ExamStep | apps/api/src/services/platform-store.exam-admin.ts:108-221 | What every call makes of every exam: created as a draft, changed in all but its status, marked as deleted, or as it was |
| PlatformStoreAnswers.DeletedStaysDeleted | apps/api/src/services/platform-store.exam-admin.ts:157-221 | A deleted exam stays as it is on every run |
| PlatformStoreService.Store.MarkStaleProctorDevices | apps/api/src/services/platform-store.service.ts:224-235 | The fields after a sweep |
| PlatformStoreService.Store.GetCandidateInviteForInternalUse | apps/api/src/services/platform-store.service.ts:119-123 | Sweep and second read, as the specification |
| PlatformStoreService.Store.GetInviteForWorkspaceUse | apps/api/src/services/platform-store.service.ts:294-298 | The gate's answer on the swept state; a refusal keeps the sweep |
| PlatformStoreService.Store.AssertExamSessionOpen | apps/api/src/services/platform-store.state.ts:226-234 | The sessions are reassigned only if the exam is open |
| PlatformStoreService.Store.SaveCandidateCodeDraft | apps/api/src/services/platform-store.service.ts:237-250 | The store is that of the run with one more call; an accepted draft was permitted by the calls before it, is found under its key with its code, and leaves other drafts as they were; a refused one leaves all drafts; every session keeps its end |
| PlatformStoreService.Store.RunCandidateCode | apps/api/src/services/platform-store.service.ts:252-267 | The same for a run: an accepted one was permitted and is recorded in front with its verdict; one refused, by the runner too, records nothing |
| PlatformStoreService.Store.SubmitCandidateCode | apps/api/src/services/platform-store.service.ts:269-292 | The same for a submission: an accepted one was permitted, is one more in front for the candidate, who is then in progress, and for code its score says whether all or none of the runner's tests passed |
| PlatformStoreService.Store.JudgeAndSubmit | apps/api/src/services/platform-store.service.ts:269-292 | Judging and submitting together: an accepted coding submission within the limits scores 100 exactly if every test passed when it was run and 0 exactly if none did, and 100 if each test needs no more than 600 ms |
| PlatformStoreService.Store.UpsertProctorDevice | apps/api/src/services/platform-store.service.ts:205-215 | The store is that of the run with one more report; the device has the reported status and every other device is found as before |
| PlatformStoreService.Store.SaveCandidateEnvironmentCheck | apps/api/src/services/platform-store.service.ts:127-142 | The check that the gate reads for the candidate is this one if it is accepted; every other candidate's, and all if it is refused, are as before |
| PlatformStoreService.Store.VerifyCandidateIdentity | apps/api/src/services/platform-store.service.ts:144-154 | The same for a verification |
| PlatformStoreService.Store.MarkCandidateReady | apps/api/src/services/platform-store.service.ts:174-178 | Exactly the candidate of the token becomes ready, or nobody if the invite cannot be read; every other candidate's status is as before |
| PlatformStoreService.Store.GetCandidateWorkspace | apps/api/src/services/platform-store.service.ts:180-185 | An opened workspace has a session, and every session there was is found as it was |
| PlatformStoreService.Store.CreateProctorAction | apps/api/src/services/platform-store.candidate-admin.ts:66-105 | A pause, resume or termination that is taken is the candidate's latest blocking action from then on; no other candidate's changes, and a memo or warning changes none |
| PlatformStoreService.Store.GetCandidateInvite | apps/api/src/services/platform-store.service.ts:110-123 | The answer is the invite as it reads after the sweep, and the store is that of the run with one more call |
| PlatformStoreService.Store.LogProctorEvent | apps/api/src/services/platform-store.service.ts:187-197 | An accepted event is the newest of the log, and the log there was is still its end |
| PlatformStoreService.Store.GetLiveProctorState | apps/api/src/services/platform-store.service.ts:217-235 | No device of the exam is stale any more |
| PlatformStoreService.Store.DeleteExam | apps/api/src/services/platform-store.exam-admin.ts:197-221 | Exactly for an exam that exists: it is found as it was but deleted, and every other exam as before |
| PlatformStoreService.Store.AddCandidate | apps/api/src/services/platform-store.exam-content.ts:127-162 | Exactly for an exam that exists, one invited candidate more; no other status changes |
| CompetencyReport.RiskIsAdditive | apps/api/src/services/platform-store.helpers.ts:28-45 | The risk of two logs together is the sum of their risks |
| CompetencyReport.RiskIsTheTable | apps/api/src/services/platform-store.helpers.ts:28-45 | The risk is read off the table of weights, by how many events of each kind there are |
| CompetencyReport.RiskLevels | apps/api/src/services/platform-store.helpers.ts:47-51 | Danger from 30 on, warning from 12 on |
| CompetencyReport.RiskIgnoresOrder | apps/api/src/services/platform-store.helpers.ts:28-45 | Logs with the same events in any order have the same risk |
| CompetencyReport.RiskNeverFalls | apps/api/src/services/platform-store.helpers.ts:47-51 | Further events lower neither risk score nor risk level |
| CompetencyReport.OverallAtMost94 | apps/api/src/services/ai-evaluation.service.ts:42-54 | The overall score is at most 94, and 94 is reached |
| CompetencyReport.ReportIs | apps/api/src/services/ai-evaluation.service.ts:42-54 | Each part of the report by cases, and each rounding as the nearest integer with halves upward |
| CompetencyReport.OverallIsMonotone | apps/api/src/services/ai-evaluation.service.ts:42-54 | The overall score never falls when passed tests or code runs rise and failures, pastes, risk and minutes fall, all at once, across every rounding and the case without tests |
| CompetencyReport.PassRateRises | apps/api/src/services/ai-evaluation.service.ts:42-45 | The pass rate rises with passed tests, also from no tests at all |
| CompetencyReport.PassRateFalls | apps/api/src/services/ai-evaluation.service.ts:42-45 | The pass rate falls with failed tests, also from no tests at all |
| CompetencyReport.EventsNeverRaiseTheReport | apps/api/src/services/platform-store.report.ts:131-154 | On the whole log, as the in-memory store gives it, further events never raise the overall score |
| ReportWindow.RiskFallsExactlyIf | apps/api/src/services/platform-store.report.ts:66-105 | With the newest fifty events taken, any further events lower the risk exactly if those of them that are taken weigh less than the events they push out |
| ReportWindow.OneEventLowersRiskExactlyIf | apps/api/src/services/platform-store.report.ts:66-105 | One event lowers the risk exactly if fifty events were there and the fiftieth weighs more |
| ReportWindow.NeverRaisedExactlyIf | apps/api/src/modules/ai.controller.ts:22-38 | Further events raise the overall score for no other signals exactly if the events then taken contribute no more, for an even and for an odd pass rate, through code quality, implementation and integrity, all roundings and bounds included |
| ReportWindow.NeverRaisedIfNoLighter | apps/api/src/modules/ai.controller.ts:22-38 | They never raise it if what is pushed out weighs no more and holds no more pastes than what comes in |
| ReportWindow.OneEventNeverRaises | apps/api/src/modules/ai.controller.ts:22-38 | One event never raises it if nothing is pushed out, or what is weighs no more and is no paste unless the new event is one |
| ReportWindow.RunsCountUpToTwenty | apps/api/src/services/platform-store.report.ts:66-105 | Of the runs at most twenty count |
| ReportWindow.TheReportCanRise | apps/api/src/modules/ai.controller.ts:22-38 | After fifty pastes fifty returns to the window lower the risk from 400 to 50 and raise the overall score from 69 to 86 |
| OrganizationInvitations.CommitsAllOrNothing | apps/api/src/services/organization-invitations.service.ts:40-60 | On every interleaving and however stale the read: the transaction commits exactly if the user is in no organization and the invitation is still theirs and pending, and then gives the organization and role the invitation offers and marks it accepted together; else no row changes |
| OrganizationInvitations.ReadsExactlyTheirPending | apps/api/src/services/organization-invitations.service.ts:41-44 | An accept goes on exactly with an invitation that is there, theirs and pending, as read; otherwise it answers with the first of these that fails |
| OrganizationInvitations.DeletionTakesTheirInvitations | apps/api/src/services/admin-users.service.ts:152-153 | Deleting a user takes exactly them and the invitations they received or sent |
| OrganizationInvitations.NoInvitationIsAcceptedTwice | apps/api/src/services/organization-invitations.service.ts:52-56 | No invitation is accepted twice on any run |
| OrganizationInvitations.AtMostOnePerPeriodWithout | apps/api/src/services/organization-invitations.service.ts:46-50 | On every run a user joins by invitation at most once more than they were taken out of an organization, and not at all before the first time if they start in one |
| OrganizationInvitations.Database.AcceptTransaction | apps/api/src/services/organization-invitations.service.ts:45-60 | The two guarded updates with rollback have exactly the specified effect |
| OrganizationInvitations.Database.JoinIfUnaffiliated | apps/api/src/services/organization-invitations.service.ts:46-50 | The first guarded update and its count |
| OrganizationInvitations.Database.MarkIfPending | apps/api/src/services/organization-invitations.service.ts:52-56 | The second guarded update and its count |

## Left out

- The web client, HTTP controllers beyond the signals of a report, WebRTC and media: presentation and I/O.
- Docker, file system, DNS, mail, the identity provider and the external evaluation service: foreign calls, modelled as parameters.
- Cryptography: digests are injective, a password match is a parameter, identifiers are fresh.
- Interleavings inside an async store call or gateway handler: the store and gateway results are for whole calls, and nothing is claimed across an `await`.
- AuthSessions.NoSocketOutlivesItsSession: does not cover a session that ends while a join is waiting for the database, because a handler is one step.
- ProctorGateway.Gateway.HandleDisconnect: does not include the device report and event that follow for a candidate's socket; they are `ReportDevice` and `ReportEvent` steps of the store.
- RateLimitsEviction.DropBreaksTheLimit: covers a subject limit no larger than the client limit, as in all three limiters of the service (20 and 10, 12 and 6, 6 and 3), since the burst comes from one client.
- The database paths of the store, except the query of the heartbeat sweep, and falling back from the database in the midst of a call.
- Test cases, executions' outputs, question texts and other fields that no modelled decision reads.
- Trimming and lower-casing of languages, answers and e-mail addresses: names are taken in their normal form, and whether a text answer matches is a parameter.
- AuthSessions.AuthSessionRegistry.RevokeUser: does not say in which order the sessions are returned, because the sessions are a map without insertion order.
- The one-millisecond minimum of timers: a timer may fire at any time from being armed, early or late.
- What is checked before an invitation is issued: it is read outside a transaction, so an invitation may be issued to any user at any time.
- ReportWindow.TheReportCanRise: events of the same millisecond are in the order of their arrival, which the database leaves open.
- Floating point in `Math.round`: fractions are exact and halves round up.
- A lower bound of the debugging or overall score: there is none, as failed tests are subtracted without a floor.
- The refusal of code runs in production, role checks and organization checks: single conditions in front of the modelled steps.
- Seeding, dashboards, reports' sorting and mappers: they would only add easy members.
