# Dafny model of the brainapi client core

The project models the parts of the brainapi SDK whose claims are about whole
runs rather than single calls, and proves those claims for every input, every
run and every schedule:

- the request engine (`do`, `evaluate`, the nested `Login`) with its two retry
  budgets, ban detection and shared client state, and the submit loop on top;
- the offline self-correlation pipeline, from raw PnL records to the ranked
  result, in exact arithmetic;
- the parallel proof-of-work search;
- the daily quota gate, the submission slots and the page drain;
- the rune-boundary cut used for feedback titles and bodies.

## How the program is represented

**Replies.** A round trip yields a `Reply`: a network failure, or a status, an
optional Retry-After (any integer) and a body. The body carries the answers to
every question the engine asks about its bytes (does it contain `"checks"`, is
there a `detail` string, how does it decode as a submit body), so no assumption
is made about how those answers are related. A call is driven by two finite
feeds, its own replies and those of the authentication endpoint. The end of a
feed is the moment the caller's context ends, so every theorem about feeds is
also a theorem about cancellation after any number of replies.

**Two layers.** Code that changes fields is written as methods of classes
(`Client.Client`, `Client.RetryState`, `Budget.BudgetGate`) with the source's
branches in the source's order; loops over slices are methods with `while` or
`for`. Each is proved equal to a function on values (`Transport.Do`,
`Budget.Reserve`, `Series.Returns`, `Align.Join`, `Pearson.Corr`, ...), and the
theorems are about those functions. What each function computes is in turn stated
without it: attempts by status, body and hints (`Attempts`), the gate request by
request (`Budget.GrantedIff`), the correlation from plain sums
(`Pearson.CorrFormula`), the ranking and the entry point from the input series
(`Ranking.ResultMeans`, `SelfCorr.LocalMeans`), trimmed returns from the records
(`Series.PipelineMeans`). `Client.Client.Do` takes its termination
measure from the three counters alone, which is the argument the comment at
`pkg/brainapi/transport.go:402-404` makes.

**Concurrency.** `Isolation`, `Slots`, `BudgetClock`, `Altcha` and `Paginate`
are step machines: one step per atomic operation, channel operation, round trip
or cancellation, and any live participant may take the next step. A 403 that
trips the ban is two steps (counting it, storing flag and reason), an attempt of
a create call is a context check and a send, a quota check is a clock read and a
locked section. Under Go's `select` a queued create call may take a free slot
although its context has ended; the slot machine allows it. `Altcha.Solve` takes
the schedule of its goroutines as a parameter.

**Numbers.** Durations are milliseconds. The 403 streak wraps as the `int32` it
is (`pkg/brainapi/client.go:123`), and the search counter as an `int64`; other
counters are unbounded. Correlations are real numbers. To stay clear of the square
root the model uses the signed square r·|r|; `Pearson.RootForm` and
`Pearson.SignedSquareOrder` relate it to r and show that it determines r and that
ranges and rankings are the same. Non-finite PnL values are one explicit constructor.

**Dates.** A date is an integer key in date order. `sort.Slice` is any function
from the list of keys to an order that sorts them, stable or not
(`Sorting.ValidSorterExists` shows there is one), and the calendar computation of the trimming window is any function from the last date
to a cutoff, or to nothing when the last date does not parse. The budget day is
the whole-day quotient of a UTC instant shifted by four hours.

## What was found

- The quota of `checkBudget` holds for whatever is asked if and only if no
  day comes back in lock order after another one was seen
  (`Budget.QuotaHoldsIff`). The day is read before the lock is taken
  (`pkg/brainapi/client.go:281-283`): with the two as separate steps, three
  callers around a day boundary are granted twice any positive quota
  (`BudgetClock.StaleReadsOverGrant`), and no run does so in which every lock is
  taken on the day that was read (`BudgetClock.PunctualRunsKeepQuota`).
- For two or more workers `ErrNoSolution` can be trusted if and only if
  MaxNumber plus the worker count fits in an int64; with one worker it can
  always be trusted (`Altcha.CompleteIff`). Otherwise the loop variable wraps to
  a negative number, which can hit, stop the other workers and then be reported
  as no solution (`Altcha.MissedSolution`). That witness needs two numbers that
  hit, which for the real hash is a SHA-256 collision under one salt; when at
  most one int64 hits, ErrNoSolution can be trusted for every worker count
  (`Altcha.SingleHitIsTrusted`). A number that is returned is a solution in any
  case (`Altcha.SolveIsSound`).
- Long-poll ticks can be erased from a trace without changing anything but the
  ticks if and only if the call does not end in `ErrLongPollExceeded`, and it
  ends so exactly when some beginning of the trace holds more ticks than the cap
  while its other replies leave the call undecided (`LongPoll.ErasureIff`).
- The bound of 2·maxRetries + cap + 3 round trips and 240·maxRetries + 30·cap
  seconds is attained for all hints of a polling call that may log in, and the
  smaller bounds of the other calls are attained too
  (`RunBounds.BoundsAreAttained`).
- A threshold above the largest int32 never bans: the flag is tied to
  `BanHistory.Armed`, not to the threshold being positive.
- A nil error from `do` does not imply a 2xx, an accepted poll signal or a checks
  rejection: an opaque 403 that outlives the retries is returned with a nil error,
  with the default options after three lost connections
  (`Outcomes.OpaqueAfterThreeLost`). It happens exactly when the retries are spent
  (`Outcomes.NilErrorIff`), and it can happen to a call exactly when the client is
  not banned and either the next opaque 403 does not reach the threshold, or the
  threshold is above one and a login may clear the streak
  (`Outcomes.NilErrorSettlesIff`).
- A create call cancelled between its context check and its send still makes that
  one round trip (`Slots.LateSend`), and no other (`Slots.CancelledSends`).
- The early guard of `MaxSelfCorr` reports zero skipped neighbours where the
  scan would report all of them, and that is the only difference
  (`Ranking.GuardAgreesWithScan`).
- `docs/protocol.md:214-216` says the day rolls at 3 AM US/Eastern; the code
  shifts by a fixed four hours, and the model follows the code. The comment at
  `pkg/brainapi/retry.go:97-100` speaks of a global cooldown; the code backs off per request, and
  the model follows the code.

## Model

| member | source | states |
|---|---|---|
| Retry.ClampIsNearest | pkg/brainapi/retry.go:68-79 | clamping picks the one point of the range nearest to the value |
| Retry.Clamp | pkg/brainapi/retry.go:71-79 | the result lies between the bounds, and a value between them is left alone |
| Retry.WrapIsCongruence | pkg/brainapi/client.go:121-125 | two streaks look alike exactly when they differ by a multiple of 2^32 |
| Retry.Wrap32 | pkg/brainapi/client.go:121-125 | the stored streak is in the int32 range, and a count in that range is stored as it is |
| Transport.RetrySpendsOne | pkg/brainapi/transport.go:338-350 | a retry spends exactly one unit of exactly one of the three budgets (errors, ticks, relogin) and leaves the other counters alone |
| Client.Client.constructor | pkg/brainapi/client.go:152-163 | zero options become 3 retries, 60 polls and a ban threshold of 3; the shared state starts clean |
| Client.Client.SetCredentials | pkg/brainapi/client.go:217-222 | changes the two credentials and nothing else |
| Client.Client.ClearCredentials | pkg/brainapi/client.go:230-235 | empties the two credentials and nothing else |
| Client.Client.Preflight | pkg/brainapi/transport.go:354-366 | refuses with the recorded streak and reason exactly when the flag is up |
| Client.Client.Evaluate | pkg/brainapi/transport.go:445-607 | decision, new shared state, new counters and nested round trips are those of the specification, branch by branch in the source's order |
| Client.Client.Do | pkg/brainapi/transport.go:372-435 | the loop refines the specification on every feed; it terminates by the three counters, whatever the server answers |
| Client.Client.Login | pkg/brainapi/auth.go:17-47 | the nested login refines the specification |
| Attempts.PermissionDeniedIff | pkg/brainapi/transport.go:531-534 | whatever the hints, an attempt ends in PermissionDenied(d) exactly on a 403 with neither checks nor NOT_VERIFIED and with detail d, and then clears the streak |
| Attempts.NotVerifiedIff | pkg/brainapi/transport.go:518-522 | an attempt ends in NotVerified exactly on a 403 without checks and with NOT_VERIFIED, and moves nothing |
| Attempts.SharedMoves | pkg/brainapi/transport.go:472-541 | the streak rises exactly on a 403 with none of the three marks, falls to zero exactly on a final 2xx, an accepted 3xx or 503, a checks or a detail 403; the flag goes up, with streak and the first 200 characters of the body, exactly when the threshold is reached |
| Attempts.ForbiddenIff | pkg/brainapi/transport.go:535-547 | an unmarked 403 that does not ban is retried after 5 s while retries are left |
| Attempts.DeliveredIff | pkg/brainapi/transport.go:458-546 | an attempt hands its reply back without an error exactly on those replies, and on an unmarked 403 with the retries spent |
| Attempts.TickIff | pkg/brainapi/transport.go:460-584 | which replies are ticks; they pause by the server's hint within 0.5 s and 30 s, 0.5 s without one, until there are more than the call's or else the client's cap |
| Attempts.NetworkIff | pkg/brainapi/transport.go:446-456 | a lost round trip is retried after 2, 4, 6, ... s up to 15 s while retries are left, else ends the call with its cause |
| Attempts.RateLimitIff | pkg/brainapi/transport.go:549-574 | a 429 is retried after the server's hint within 1 s and 120 s while retries are left, else ends in RateLimited with that hint; cooldown bodies only name it differently |
| Attempts.ServerErrorIff | pkg/brainapi/transport.go:576-595 | a 5xx that is no poll signal is retried after 5, 10, 15, 15, ... s while retries are left, else ends in its status |
| Attempts.ClientErrorIff | pkg/brainapi/transport.go:597-606 | any other status ends the call, as a field error exactly if the body has them and the status is neither 404 nor 405 |
| Attempts.UnauthorizedMeans | pkg/brainapi/transport.go:488-512 | a 401 is final in and after a login, an error of its own without credentials, and else worth exactly one login, whose error ends the call |
| Attempts.NoLogin | pkg/brainapi/transport.go:488-512 | no other reply starts a login or touches credentials |
| Attempts.ClassesMean | pkg/brainapi/transport.go:458-580 | the two classes by which logs are counted, by status, body and hints |
| Attempts.BannedCall | pkg/brainapi/transport.go:354-361 | a banned client answers at once with the recorded streak and reason |
| Attempts.CancelledCall | pkg/brainapi/transport.go:405-409 | a call whose context has ended stops before the next attempt and leaves the client as it is |
| Attempts.CallUnfolds | pkg/brainapi/transport.go:405-434 | a call is its first attempt and, exactly if that asks for a retry, the call on the rest |
| Attempts.DeniedAtOnce | pkg/brainapi/transport.go:524-534 | a permission denial ends a call on the spot and clears the streak, so no number of them bans |
| Attempts.FlagNeedsOpaque | pkg/brainapi/transport.go:514-541 | a call and its login raise the flag or answer with the ban only if one of them received a 403 with none of the three marks |
| RunBounds.RunWithinBudget | pkg/brainapi/transport.go:402-435 | from any counters, round trips and total sleep, nested login included, stay within what the counters still allow |
| RunBounds.EvaluateCost | pkg/brainapi/transport.go:445-607 | each attempt, its sleep and its nested login are paid for by what the counters lose |
| RunBounds.LoginCost | pkg/brainapi/auth.go:17-33 | a login makes at most maxRetries + 1 round trips and sleeps at most 120·maxRetries seconds |
| RunBounds.CallIsBounded | pkg/brainapi/transport.go:401-435 | every call makes at most 2·maxRetries + cap + 3 round trips and sleeps at most 240·maxRetries + 30·cap seconds, whatever Retry-After says, and ends by its own decision on feeds that long |
| RunBounds.LongFeedIsNotExhausted | pkg/brainapi/transport.go:402-435 | on feeds as long as the budget the call never runs out of replies |
| RunBounds.BoundsAreAttained | pkg/brainapi/retry.go:83-95 | for all hints and limits one server behaviour uses up every trip and all the sleep the hints allow and still ends in success; for a call that polls (by 503, by an empty 200, or both) and may log in these are the bounds of the previous rows |
| Outcomes.GivesUpIffSpent | pkg/brainapi/transport.go:338-350 | unless banned, a call gives up on a network failure, opaque 403, 429 or 5xx exactly when its own such replies outnumber the retries it had left; ticks and whatever a nested login met do not count |
| Outcomes.NilErrorIff | pkg/brainapi/transport.go:458-547 | a nil error comes with the last reply received, and exactly when that reply settled the call, or is an opaque 403 that did not ban and came with the retries spent |
| Outcomes.NilErrorMeans | pkg/brainapi/transport.go:458-547 | what a caller may conclude from the reply alone: a success, an accepted 3xx or 503, a checks rejection, or an opaque 403, the last only after one more own error than the retries it had left |
| Outcomes.OpaqueAfterThreeLost | pkg/brainapi/transport.go:543-545 | with the default options three lost connections and an opaque 403 end in a nil error |
| Outcomes.NilErrorSettlesIff | pkg/brainapi/transport.go:536-547 | no feed can deliver an opaque 403 with a nil error exactly when the client is banned, or the next one bans and the threshold is one or no login may clear the streak |
| Outcomes.LoginSucceedsIff | pkg/brainapi/auth.go:17-47 | a login succeeds exactly when the last reply it received is a 2xx without a body or with a session that asks for no persona inquiry; it then leaves a clean streak, no ban and the new credentials, otherwise the stored ones |
| Outcomes.LoginFailsIff | pkg/brainapi/auth.go:17-47 | why a login failed, read off its last reply: persona inquiry with its id, undecodable session, 401, 403; invalid argument exactly without an email or password |
| LongPoll.ExceededIffTooManyTicks | pkg/brainapi/transport.go:465-469 | ErrLongPollExceeded is returned exactly when the log holds more ticks than the cap |
| LongPoll.ErasedRun | pkg/brainapi/transport.go:338-350 | from any counters, deleting the ticks keeps result, shared state, error retries, logins and their sleeps |
| LongPoll.ExceededIffOverrun | pkg/brainapi/transport.go:465-469 | a trace exceeds the cap exactly when some beginning of it holds more ticks than the cap and its other replies leave the call undecided |
| LongPoll.ErasureIff | pkg/brainapi/transport.go:338-350 | that erasure holds for a whole call if and only if it does not end in ErrLongPollExceeded, which is read off the trace as in the previous row |
| LongPoll.ErasureWithinCap | pkg/brainapi/transport.go:341-345 | in particular for every trace with at most cap ticks |
| LongPoll.PlainCallHasNoTicks | pkg/brainapi/transport.go:445-607 | a call whose hints rule ticks out, whether or not it logs in again, never ticks and never hits the cap |
| BanHistory.AttemptFolds | pkg/brainapi/transport.go:514-547 | one attempt keeps the shared state the fold of the history, and raises the flag only while ending the call in BannedError |
| BanHistory.RunFolds | pkg/brainapi/transport.go:472-547 | a whole call, nested login included, keeps the shared state the fold of the history |
| BanHistory.HistoryFolds | pkg/brainapi/transport.go:354-366 | so does any sequence of calls, logins and credential changes; once the flag is up it stays up and no operation makes a round trip |
| BanHistory.BanIsAFold | pkg/brainapi/transport.go:355-361 | on a new client the streak counts the opaque 403s since the last reset, the flag is up exactly when that count has reached a reachable positive threshold, at the very last round trip, for good |
| Isolation.StepKeepsFuture | pkg/brainapi/transport.go:549-574 | a step that does not trip the ban keeps what the moving call will answer and the session |
| Isolation.FutureIgnoresStreak | pkg/brainapi/transport.go:354-366 | what a call will answer with detection off does not depend on the 403 streak other calls move |
| Isolation.MoverKeepsFuture | pkg/brainapi/transport.go:354-366 | in any state, banned or not, a step bars the moving call or keeps what it will answer |
| Isolation.CallsAreIsolated | pkg/brainapi/transport.go:549-574 | in every interleaving each finished call answers what it answers alone with ban detection off, unless the flag is up and it answers with the ban |
| Isolation.UninterruptedIsDo | pkg/brainapi/transport.go:372-435 | the steps of a call nobody interrupts compute the sequential engine's result and shared state |
| Submit.ParseSubmitVerdict | pkg/brainapi/alphas.go:153-243 | the scan and its branches compute the verdict function that the next three rows characterise |
| Submit.VerifiedIff | pkg/brainapi/alphas.go:222-236 | verified exactly on a 2xx with a decodable body that has no is block, or no other failed check and a passed last self-correlation |
| Submit.CorrRejectedIff | pkg/brainapi/alphas.go:210-221 | rejected for correlation exactly on a failed last self-correlation with no other failed check, at any status that is not a poll signal |
| Submit.UndecidedIff | pkg/brainapi/alphas.go:157-167 | polling goes on exactly on a poll signal, an empty 2xx, or checks that neither fail nor settle the correlation |
| Submit.VerdictFields | pkg/brainapi/alphas.go:167-242 | a verdict carries its reply's status and the checks of the block |
| Submit.FailureIff | pkg/brainapi/alphas.go:163-242 | each reason for a failed submit, exactly when it applies |
| Submit.FailedNames | pkg/brainapi/alphas.go:189-209 | a check failure names every failed check but the self-correlation, in list order |
| Submit.RejectedValue | pkg/brainapi/alphas.go:210-221 | a correlation rejection reports the value of the last self-correlation check |
| Submit.PollSignalGoesOn | pkg/brainapi/alphas.go:109-119 | a 3xx or 503 reaches the loop at once, without a retry, and leaves the submit undecided |
| Submit.NapMeans | pkg/brainapi/alphas.go:122-130 | the pause is the server's hint where that is within 0.5 s and 30 s, the nearer bound otherwise, and 0.5 s without one |
| Submit.PostAndPoll | pkg/brainapi/alphas.go:108-144 | answers what the first settled one of the POST and at most maxLongPolls GETs says, pending exactly when all were undecided; stops at that round, having paused after each earlier one by the server's hint within 0.5 s and 30 s |
| Submit.SubmitAlpha | pkg/brainapi/alphas.go:100-145 | an empty id costs nothing; otherwise one submit unit is taken first; over budget neither client nor network is touched; trips and sleep stay within the bounds of the next row |
| Submit.SubmitIsBounded | pkg/brainapi/alphas.go:108-144 | with p = maxLongPolls a submit makes at most (p + 1)·(2·maxRetries + 3) round trips and sleeps at most (p + 1)·240·maxRetries + 30·p seconds, whatever the server answers |
| Submit.AnswerIsUnique | pkg/brainapi/alphas.go:121-144 | exactly one answer fits the description of the previous rows |
| Submit.SettledRound | pkg/brainapi/alphas.go:131-143 | an answer that is not pending is read off the first settled round, error or verdict |
| Submit.VerdictHttp | pkg/brainapi/alphas.go:100-145 | a decided verdict carries the 2xx or 403 of its reply, a verified one a 2xx |
| Budget.DayStartsAtFourUtc | pkg/brainapi/client.go:336-346 | a challenge day runs from 04:00 UTC to 04:00 UTC, and days follow the clock |
| Budget.BudgetGate.CheckBudget | pkg/brainapi/client.go:280-302 | result and new counters are those of one single-unit reservation, described request by request by GrantedIff |
| Budget.BudgetGate.CheckBudgetN | pkg/brainapi/client.go:309-334 | result and new counters are those of one reservation of n units, all or nothing |
| Budget.GrantedIff | pkg/brainapi/client.go:280-334 | in any sequence of requests one succeeds exactly when its entry of the quota is not positive, or the units of its own kind granted since the day began plus its own do not exceed it; n up to 1 is one unit |
| Budget.SwitchedOff | pkg/brainapi/client.go:29-36 | a non-positive entry grants every request of its kind, from whatever counters |
| Budget.BatchEqualsSingles | pkg/brainapi/client.go:304-334 | a batch succeeds exactly when that many single reservations would all succeed, with the same final counters |
| Budget.GrantBound | pkg/brainapi/client.go:284-301 | from any gate, a day is granted no more than what its quota has left |
| Budget.QuotaHolds | pkg/brainapi/client.go:280-334 | over any sequence of requests in which no day comes back, no day exceeds its positive quota |
| Budget.QuotaHoldsInOrder | pkg/brainapi/client.go:280-334 | in particular when clock readings reach the lock in order |
| Budget.QuotaHoldsIff | pkg/brainapi/client.go:281-283 | the exact condition: the quota holds for whatever is asked if and only if no day comes back |
| BudgetClock.StaleReadsOverGrant | pkg/brainapi/client.go:281-283 | from every moment a run of clock reads and locks by three callers grants twice any positive quota on one day |
| BudgetClock.PunctualRunsKeepQuota | pkg/brainapi/client.go:281-283 | in every run where each lock is taken on the day that was read, the gate is the fold of the requests served and no day exceeds its quota |
| Slots.StepKeepsInv | pkg/brainapi/client.go:269-276 | every step keeps tokens equal to holders, within capacity, and every call's account balanced |
| Slots.SlotsAreConserved | pkg/brainapi/simulations.go:35-111 | in every reachable state tokens are the calls between acquire and release, never above capacity; a finished call gave back what it took, exactly once; only slot holders post |
| Slots.SlotsNeverDeadlock | pkg/brainapi/simulations.go:43-49 | unless all calls are done some call can move without any cancellation |
| Slots.CancelledSends | pkg/brainapi/transport.go:405-419 | a cancelled call makes at most the one round trip it had already checked its context for, and none at all when cancelled while queued, slot or no slot |
| Slots.LateSend | pkg/brainapi/transport.go:405-419 | that one late round trip is possible |
| Altcha.ClampWorkersFits | pkg/captcha/altcha/solver.go:74-82 | there is a stripe for every worker, also where MaxNumber+1 overflows |
| Altcha.ClampWorkersIs | pkg/captcha/altcha/solver.go:74-82 | as many workers as asked for, or one per processor, but no more than there are numbers |
| Altcha.StripesPartition | pkg/captcha/altcha/solver.go:102-113 | the numbers w + i·workers cover the range, each for exactly one worker and one turn |
| Altcha.HashedIsVisited | pkg/captcha/altcha/solver.go:113-121 | with room in int64, worker w only ever hashes numbers w + i·workers of the range |
| Altcha.StepIsSound | pkg/captcha/altcha/solver.go:121-127 | in every search, overflow or not, each step keeps that found hits and is not above the range, and never changes it once set |
| Altcha.SolveIsSound | pkg/captcha/altcha/solver.go:84-147 | in every search and under every schedule a returned number is a solution in range, and found changes at most once |
| Altcha.StepKeepsInv | pkg/captcha/altcha/solver.go:105-130 | with room in int64 each step keeps: found is the least solution of its stripe, and a worker has tried its stripe up to its number |
| Altcha.SolveIsCorrect | pkg/captcha/altcha/solver.go:84-147 | with room in int64, for every schedule and cancellation: a returned number is least on its stripe, least of all with one worker, and ErrNoSolution means there is none |
| Altcha.SolveTerminates | pkg/captcha/altcha/solver.go:113-131 | every run is finite with an explicit bound, and until all workers are gone one of them can move |
| Altcha.StoppedRun | pkg/captcha/altcha/solver.go:113-128 | in any search, once the stop flag is up no worker starts another hash and each takes at most three more steps |
| Altcha.CancelStops | pkg/captcha/altcha/solver.go:91-116 | after the context has ended the watcher can raise the flag at once, each worker is then gone after at most three steps, and the answer is the cancellation |
| Altcha.CancelledSolveReturns | pkg/captcha/altcha/solver.go:91-135 | whatever happened before and however large the range: context ended, watcher run, three turns for every worker, and Solve answers that it was cancelled |
| Altcha.Solve | pkg/captcha/altcha/solver.go:62-148 | for every challenge and schedule: the error cases in order, then what the step machine answers after that schedule; a number is a solution, and with one worker or room in int64 no solution means none |
| Altcha.MissedSolution | pkg/captcha/altcha/solver.go:112-128 | without room in int64 a schedule of two or more workers reports no solution although there is one |
| Altcha.CompleteIff | pkg/captcha/altcha/solver.go:74-138 | for every worker count Solve settles on, ErrNoSolution can be trusted exactly with one worker or when the last increments fit in int64 |
| Altcha.SingleHitIsTrusted | pkg/captcha/altcha/solver.go:112-138 | when at most one int64 hits, ErrNoSolution can be trusted for every worker count, overflow or not |
| Altcha.FruitlessSearchNeverEnds | pkg/captcha/altcha/solver.go:112-128 | one worker over all of int64 that hits nothing never ends unless cancelled |
| Paginate.EndRulesAgree | pkg/brainapi/schema.go:73 | a next link given exactly while items remain, and a count of the whole list, both mark the last page |
| Paginate.ServerExists | pkg/brainapi/iterators.go:5-11 | there is a server as assumed, for every list and page size |
| Paginate.PaginateAll | pkg/brainapi/iterators.go:12-39 | without an error it has emitted L[offset..]; on a fetch error exactly the earlier pages; on cancellation a prefix |
| Paginate.StepKeepsControl | pkg/brainapi/iterators.go:13-38 | every step of producer or consumer keeps the closing order, at most one error ever sent, and nothing lost between emitted and received |
| Paginate.DrainIsSafe | cmd/brainapi/handler.go:39-48 | against any server and schedule: no deadlock, at most one error, and the result is the emitted sequence or the error, an error exactly when one was sent |
| Paginate.DrainIsExact | cmd/brainapi/handler.go:39-48 | against a server of L a nil-error result is L[offset..] itself; an error is the end of the context, or that of the fetch right after what was emitted, never of one past the end |
| Paginate.DrainCompletes | cmd/brainapi/handler.go:39-48 | without a failing fetch and a cancellation a drain that can go no further has returned L[offset..] |
| Paginate.DrainTerminates | pkg/brainapi/iterators.go:18-36 | the number of steps is bounded by a measure that falls with the distance to the end of L |
| Sorting.ValidSorterExists | pkg/brainapi/selfcorr.go:104 | what is assumed of the library sort can be had |
| Series.TrimPnLToYears | pkg/brainapi/selfcorr.go:96-118 | drop, sort, cut: the loops compute the trimming function |
| Series.TrimMeans | pkg/brainapi/selfcorr.go:89-118 | the result is sorted and holds exactly the finite records of the window that ends at the latest finite date, with their multiplicities |
| Series.PnLToReturns | pkg/brainapi/selfcorr.go:125-157 | the two loops compute the differences of consecutive finite points |
| Series.ReturnsMean | pkg/brainapi/selfcorr.go:120-157 | the returns are the differences of the finite records, all of them with their multiplicities, in date order |
| Series.PipelineMeans | pkg/brainapi/selfcorr.go:96-157 | trimmed first, the differences of the finite records of the window that ends at the latest finite date |
| Series.PipelineOfNothing | pkg/brainapi/selfcorr.go:96-157 | without a finite record there are no returns |
| Series.Differences | pkg/brainapi/selfcorr.go:133-156 | skipping a gap without advancing the prior value is differencing the finite points |
| Series.SortIsCanonical | pkg/brainapi/selfcorr.go:131 | with distinct dates every sort gives the same sequence, from any arrangement |
| Series.ReturnsTelescope | pkg/brainapi/selfcorr.go:120-157 | returns are one fewer than the finite points and, accumulated from the first finite value, give back every later one in date order |
| Series.ReturnsIgnoreGaps | pkg/brainapi/selfcorr.go:120-157 | with distinct dates the returns depend on the finite records alone, not on gaps, order or sort |
| Series.GapsMayBeDropped | pkg/brainapi/selfcorr.go:120-123 | dropping the non-finite points beforehand changes nothing |
| Series.PipelineIgnoresOrder | pkg/brainapi/selfcorr.go:96-157 | with distinct dates the trimmed returns do not depend on record order or sort |
| Series.AffinePipeline | pkg/brainapi/selfcorr.go:96-157 | replacing the PnL v by k·v + c scales the trimmed returns by k, duplicate dates or not |
| Align.AlignReturns | pkg/brainapi/selfcorr.go:195-214 | the two indices compute the join; below 30 matches it reports not ok and empty outputs |
| Align.JoinIsTheJoin | pkg/brainapi/selfcorr.go:192-214 | on sorted inputs the result is the one sequence with ascending dates in which every date pairs off the entries of both sides in order |
| Align.OverlapIsTheIntersection | pkg/brainapi/selfcorr.go:195-214 | each date is paired as often as the rarer side has it, and the overlap is the sum of these minima |
| Align.AlignedIff | pkg/brainapi/selfcorr.go:210-213 | sorted series are aligned exactly when they share at least 30 dates |
| Align.JoinSwaps | pkg/brainapi/selfcorr.go:195-214 | swapping the inputs swaps the outputs |
| Align.JoinScales | pkg/brainapi/selfcorr.go:195-214 | scaling one side scales its column and nothing else |
| Pearson.Pearson | pkg/brainapi/selfcorr.go:162-190 | means first, then the three sums: the loops compute the coefficient of the centered series, 0 on empty, mismatched or constant input |
| Pearson.CorrFormula | pkg/brainapi/selfcorr.go:162-185 | from plain sums alone: with N = nΣab − ΣaΣb, A = nΣa² − (Σa)² and B likewise, the coefficient times A·B is N·abs(N) |
| Pearson.CovarianceFormula | pkg/brainapi/selfcorr.go:167-180 | n times the covariance sum is nΣab − ΣaΣb |
| Pearson.VarianceFormula | pkg/brainapi/selfcorr.go:167-181 | n times a variance sum is nΣa² − (Σa)² |
| Pearson.CenteredSumsToZero | pkg/brainapi/selfcorr.go:172-178 | the deviations from the mean add up to zero |
| Pearson.SumAdds | pkg/brainapi/selfcorr.go:168-171 | sums are what they are on single values and add up over parts |
| Pearson.DotAdds | pkg/brainapi/selfcorr.go:174-181 | so do sums of products |
| Pearson.CorrDefaults | pkg/brainapi/selfcorr.go:164-184 | empty, mismatched or constant input gives 0 |
| Pearson.CorrOfThree | pkg/brainapi/selfcorr.go:162-190 | 1, 2, 3 against 1, 3, 2 gives 0.25, the signed square of 1/2 |
| Pearson.CauchySchwarz | pkg/brainapi/selfcorr.go:174-182 | the square of a dot product is at most the product of the norms |
| Pearson.SumsBounded | pkg/brainapi/selfcorr.go:174-182 | num² is at most varA·varB, and the variances are not negative |
| Pearson.CorrInRange | pkg/brainapi/selfcorr.go:159-190 | the coefficient lies in [-1, 1] for all inputs |
| Pearson.VarianceZeroIffConstant | pkg/brainapi/selfcorr.go:182-184 | the zero-variance guard fires exactly on constant series |
| Pearson.ExtremeIff | pkg/brainapi/selfcorr.go:162-190 | the coefficient is ±1 exactly when one series is an affine image, k ≠ 0, of the other non-constant one |
| Pearson.CorrAffine | pkg/brainapi/selfcorr.go:162-190 | replacing one series by k·a + c multiplies the coefficient by the sign of k |
| Pearson.CorrSymmetric | pkg/brainapi/selfcorr.go:162-190 | the coefficient is symmetric |
| Pearson.RootForm | pkg/brainapi/selfcorr.go:185 | with the root s of varA·varB at hand, the source's r = num/s lies in [-1, 1] and is the one number whose signed square is the model's coefficient |
| Pearson.SignedSquareOrder | pkg/brainapi/selfcorr.go:239 | ranking by abs(r) and by the absolute signed square are the same ranking |
| Ranking.StableSortIsTheOnlyOne | pkg/brainapi/selfcorr.go:239 | exactly one arrangement is a stable descending ranking, so the library sort yields this one |
| Ranking.ScoreAll | pkg/brainapi/selfcorr.go:228-235 | every neighbour is aligned and scored in input order, or counted as skipped |
| Ranking.MaxSelfCorr | pkg/brainapi/selfcorr.go:219-250 | the method computes the guard, the scan and the summary described in the next rows |
| Ranking.ResultMeans | pkg/brainapi/selfcorr.go:216-250 | the whole result for sorted series, not in terms of its computation: exactly the neighbours sharing 30 dates are scored over their joins in input order, the list is the head of their stable ranking (5 or topK), CorrMax is its first entry's, the others are counted as skipped past the guard |
| Ranking.NobodyIsLarger | pkg/brainapi/selfcorr.go:216-250 | CorrMax is at least as large as the coefficient over the join with any neighbour sharing 30 dates |
| Ranking.SummaryMeans | pkg/brainapi/selfcorr.go:239-249 | the list is the head of the stable ranking, min(topK, scored) long, no unlisted rival larger; CorrMax is a scored correlation of largest magnitude |
| Ranking.EveryNeighbourCounted | pkg/brainapi/selfcorr.go:226-249 | past the guard considered = skipped + scored |
| Ranking.GuardAgreesWithScan | pkg/brainapi/selfcorr.go:223-225 | guard and full scan agree on everything but Skipped, and differ there exactly for a short candidate with neighbours |
| Ranking.MoreNeighboursNeverLower | pkg/brainapi/selfcorr.go:216-250 | adding neighbours anywhere never lowers the magnitude of CorrMax |
| Ranking.ResultInRange | pkg/brainapi/selfcorr.go:216-250 | every reported correlation lies in [-1, 1] and rests on at least 30 common days |
| Ranking.MaxCorrFlips | pkg/brainapi/selfcorr.go:219-250 | scaling the candidate multiplies every correlation by the sign of k and changes nothing else |
| SelfCorr.SelfCorrLocal | pkg/brainapi/selfcorr.go:257-271 | the entry point trims, differences, drops the candidate's own non-empty id and scores |
| SelfCorr.LocalMeans | pkg/brainapi/selfcorr.go:252-271 | the whole result of the entry point: exactly the neighbours without the candidate's own non-empty id are eligible, and of them the previous description holds with a list of 5 |
| SelfCorr.OwnIdIsExcluded | pkg/brainapi/selfcorr.go:262-264 | a candidate with an id is never reported |
| SelfCorr.NobodyIsLargerLocally | pkg/brainapi/selfcorr.go:257-271 | CorrMax is at least as large as the coefficient with any other neighbour whose trimmed returns share 30 dates |
| SelfCorr.PipelineIsOrdered | pkg/brainapi/selfcorr.go:123-157 | the returns handed to the join are in date order, duplicate dates or not |
| SelfCorr.LocalReportsJoins | pkg/brainapi/selfcorr.go:195-271 | every reported entry comes from an eligible neighbour, its overlap is the size of the date intersection of the two trimmed series, and its correlation is taken over their join |
| SelfCorr.LocalInRange | pkg/brainapi/selfcorr.go:252-271 | every correlation the entry point reports lies in [-1, 1] |
| SelfCorr.LocalAffine | pkg/brainapi/selfcorr.go:96-271 | replacing the candidate's PnL v by k·v + c, k ≠ 0, multiplies every correlation by the sign of k; ranking, ids, overlaps and counts stay |
| SelfCorr.LocalIgnoresOrder | pkg/brainapi/selfcorr.go:96-271 | with distinct dates, rearranging any series' records, or changing the sort, changes nothing at all |
| Truncate.Truncate | pkg/feedback/feedback.go:280-288 | the backward loop stops at the nearest rune start at or before max |
| Truncate.BoundaryIff | pkg/feedback/feedback.go:284-286 | a position of a well-formed string is a character boundary exactly when a rune starts there or the string ends |
| Truncate.TruncateIsLongest | pkg/feedback/feedback.go:279-288 | on well-formed UTF-8 (section 4 of RFC 3629) the result is the longest well-formed prefix of at most max bytes, at most 3 bytes shorter than a byte cut |
| Truncate.ContinuationsOnly | pkg/feedback/feedback.go:284-286 | off well-formed input the loop may run to zero, so the 3-byte bound comes from the encoding |

## Left out

- TLS impersonation, HTTP, the cookie jar (`pkg/brainapi/transport.go:26-290`) and what a login's cookies do to later replies: replies are arbitrary feeds.
- JSON and header parsing, `parseRetryAfter`, `isCooldownBody` as string search, the map order inside a DRF error: bodies arrive classified.
- A request body that fails to marshal (`pkg/brainapi/transport.go:377-384`): every call is taken past that point.
- The cooldown gate (`pkg/brainapi/transport.go:362-364`): nothing sets `cooldownUntil`, so it is always zero.
- Logging and observer callbacks, wall-clock times, `Solution.Took` and `Verdict.Body`.
- Pearson.Pearson: returns the signed square of the correlation instead of the quotient by `math.Sqrt`, because exact reals have no computable root; `RootForm` ties the two. Rounding, overflow and the non-finite result guard of the floating-point code are not modelled.
- The calendar in `time.Parse` and `AddDate`: the cutoff is an arbitrary function of the last date, so nothing is said about leap days.
- `WaitForSimulation`, `WaitForMultiSimulation`, `parseSimLocation` and the homogeneity check: calls of the same engine plus string handling.
- `Logout`, `Probe`, `CompletePersona` and the other endpoint wrappers: single calls of the engine.
- The TypeScript wrapper, the command line, the MCP server and the install scripts: plumbing with only easy claims.
- Altcha.Solve: runs a given schedule and says when it cuts the search short; that searches end by themselves is stated for those with room in int64 (`SolveTerminates`), because others need not (`FruitlessSearchNeverEnds`).
- Altcha.SolveIsCorrect: the least number of a stripe and the meaning of ErrNoSolution are stated with room in int64, the latter beyond that by `CompleteIff` and `SingleHitIsTrusted`.
- Altcha.CompleteIff: takes `int` to be 64 bits wide when the worker count is narrowed.
- Isolation.CallsAreIsolated: `SetCredentials` and `ClearCredentials` do not run among the interleaved calls, and flag and reason of a ban are stored in one step.
- Slots.SlotsAreConserved: the slot machine abstracts the budget gate to admit or refuse and counts round trips without their replies; both are modelled on their own.
- Paginate.DrainIsExact: a server answers each offset consistently within one drain, and the nil slice of an empty result is the empty sequence.
- Truncate.Truncate: a negative max, which the source would refuse by a slice panic, is not modelled.
- Counters other than the 403 streak and the search variable are unbounded.
