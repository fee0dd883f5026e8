# Verified model of the EKS microservices platform

A Dafny model of the parts of `eks-microservices-platform` that carry its resilience and correctness
promises, with proofs over every input, every interleaving and every reachable state:

- the **circuit breaker** shared by concurrent callers: each critical section is a function on the
  guarded fields, the `Breaker` class updates those fields in place and is proved against the
  functions, and whole concurrent runs are sequences of critical sections under a monotone clock;
- the **retry loop**, its backoff, and the **upstream client** that nests it around the breaker;
- the **per-client token bucket** and the limiter that shares and evicts buckets;
- **keyset pagination** over the validated device registry, for both stores;
- the **robust anomaly scorer** (median / MAD);
- the **race between a handler and its timeout** for one HTTP response.

Time and float64 are `real`. Every clock reading, random number, context error and network outcome is
a parameter, so each theorem holds for all of them. A critical section of the breaker takes one
reading for each time it can call the clock. Errors are values that can be searched as a chain.

| file | models |
|---|---|
| `CircuitBreaker.dfy` | the breaker's critical sections and the `Breaker` class |
| `BreakerRuns.dfy` | concurrent runs, their history, and the invariants every step keeps |
| `BreakerScenarios.dfy` | joining runs, and the stretches that concrete runs are made of |
| `BreakerTheorems.dfy`, `BreakerCapacity.dfy`, `BreakerRecovery.dfy`, `BreakerLoad.dfy` | what every run guarantees |
| `BreakerWindow.dfy`, `BreakerDue.dfy` | the counting window, and trips that are due but not made |
| `Backoff.dfy`, `Retry.dfy` | delays and the retry loop |
| `Upstream.dfy`, `RetryOverBreaker.dfy` | the client, and retry and breaker together |
| `SharedBreaker.dfy` | the client on a breaker that other callers use at the same time |
| `TokenBucket.dfy`, `TokenBucketLaws.dfy`, `LateReadings.dfy`, `RateLimiter.dfy` | one bucket, its laws, readings out of order, the shared limiter |
| `Ranks.dfy`, `Scorer.dfy`, `ScorerInvariance.dfy` | order statistics, the scorer, what a score ignores |
| `Text.dfy`, `Patterns.dfy`, `Catalog.dfy`, `CatalogStores.dfy`, `Pagination.dfy` | ids and validation, the stores, walks |
| `TimeoutRace.dfy` | the response recorder and the timeout middleware |
| `Errors.dfy`, `Options.dfy`, `Sequences.dfy` | error chains, optional values, sorting by a total order |

## Where the code and its documentation part

The model follows the code. Each difference below has a proof of exactly when the documented
statement holds.

- `HalfOpenMaxCalls` "bounds concurrent trial calls": a call admitted in an earlier phase gives back a
  slot it never took. The bound holds for the rest of a half-open phase if and only if the counter is
  exact and no such call is in flight (`TrialBoundIffUndisturbed`), and it can be exceeded under every
  configuration (`EveryConfigurationCanExceedTheBound`).
- `HalfOpenSuccesses` is "how many consecutive trial successes close the breaker": a call admitted in an
  earlier phase counts as well. From a half-open state, the rest of the phase can close the breaker by
  that many successful trials only, if and only if no older call is in flight and none has succeeded in
  the phase so far (`ClosesByTrialsIff`); and under every configuration some phase closes the breaker
  without any successful trial (`EveryConfigurationCanCloseWithoutTrials`).
- `FailureRatio` "trips the breaker once MinimumRequests is met": only a failure runs the test. A closed
  breaker has the ratio met if and only if its window has MinimumRequests verdicts or more, those from
  the MinimumRequests-th on are all successes, and the failures before them reach the ratio of the whole
  window (`DueButClosedIff`). A configuration has such states if and only if MinimumRequests - 1 failures
  reach the ratio of MinimumRequests verdicts (`CanBeDueIff`).
- `Window` is described as rolling; it is tumbling. A verdict is judged by the counts of a rolling window
  if and only if no verdict of the phase lies in the last Window of time and before the last clearing of
  the counters (`WindowRollsIff`); what such a forgotten verdict does to the decision is `WrongDecisionIff`.
  A trip that a rolling window would make can be missed under every configuration except
  MinimumRequests = 1 with FailureRatio = 1 (`CanMissIff`), and under every configuration a failure can
  trip the breaker that a rolling window would let pass (`EveryConfigurationCanTripEarly`).
- `Retry-After` is meant to tell a client when to come back, but is rounded down: waiting that long is
  enough for every denied client if and only if the rate is at least one per second
  (`HeaderSufficesIff`).
- A limiter whose burst is left to its default admits nothing when the rate is below one per second
  (`AdmitsSomethingIff`).
- Evicting idle buckets is harmless if and only if a bucket is full again within `IdleTTL`
  (`TransparentIff`). The clock is read before the lock; with readings up to d behind earlier ones,
  a bucket has to be full again within `IdleTTL` - 2d (`TransparentWithinIff`).
- The timeout middleware leaves the response to a handler that has begun it, and returns: the handler
  may then call the writer after the server has taken it back. That is possible if and only if the
  deadline is seen with the header written and the handler not yet returned (`LateOutputIff`),
  and it happens (`LateOutputHappens`).
- The "perfectly flat baseline" of the scorer is any baseline in which strictly more than half of the
  readings are equal (`FlatIffMajorityEqual`), such as k + 1 readings of one value and k of another
  (`OutvotedBaseline`).

## Model
| member | source | states |
|---|---|---|
| `CircuitBreaker.Config.WithDefaults` | eks-microservices-platform/internal/platform/resilience/breaker.go:70-92 | each setting in range is kept and each one out of range gets its documented default, independently, so the result is valid |
| `CircuitBreaker.Breaker.constructor` | eks-microservices-platform/internal/platform/resilience/breaker.go:110-118 | a new breaker is closed, with zero counts and its window starting now |
| `CircuitBreaker.Breaker.CurrentState` | eks-microservices-platform/internal/platform/resilience/breaker.go:125-130 | asking for the state applies a pending open to half-open change and nothing else |
| `CircuitBreaker.Breaker.Do` | eks-microservices-platform/internal/platform/resilience/breaker.go:137-150 | a refused call leaves the breaker-open error; an admitted one, whatever other callers do to the breaker meanwhile, is released when its error is its own context's error and recorded otherwise |
| `CircuitBreaker.Breaker.AllowCall` | eks-microservices-platform/internal/platform/resilience/breaker.go:153-172 | the whole new state and the admission decision, in every phase |
| `CircuitBreaker.Breaker.ReleaseCall` | eks-microservices-platform/internal/platform/resilience/breaker.go:175-181 | a call without a verdict gives a half-open slot back, never below zero |
| `CircuitBreaker.Breaker.RecordCall` | eks-microservices-platform/internal/platform/resilience/breaker.go:183-215 | the whole new state after a verdict, in every phase |
| `CircuitBreaker.Breaker.OpenLocked` | eks-microservices-platform/internal/platform/resilience/breaker.go:217-221 | tripping notifies the change, stamps the trip time and clears every counter |
| `CircuitBreaker.Breaker.MaybeHalfOpenLocked` | eks-microservices-platform/internal/platform/resilience/breaker.go:223-229 | an open breaker becomes half-open once the timeout has passed, with fresh slots |
| `CircuitBreaker.Breaker.RollWindowLocked` | eks-microservices-platform/internal/platform/resilience/breaker.go:231-237 | a window that is over is replaced by an empty one starting now |
| `CircuitBreaker.Breaker.ResetCountsLocked` | eks-microservices-platform/internal/platform/resilience/breaker.go:239-245 | all counters are cleared and the window restarts |
| `CircuitBreaker.Breaker.TransitionLocked` | eks-microservices-platform/internal/platform/resilience/breaker.go:247-256 | exactly the real state changes are notified |
| `CircuitBreaker.AllFailuresTrip` | eks-microservices-platform/internal/platform/resilience/breaker.go:209-213 | if nothing succeeds, the trip comes with the MinimumRequests-th failure and not before |
| `CircuitBreaker.VerdictMeans` | eks-microservices-platform/internal/platform/resilience/breaker.go:132-150 | a call counts as a success iff it has no error, and as neither iff its own context's error occurs in the chain of its error |
| `CircuitBreaker.OwnErrorIsNotCounted` | eks-microservices-platform/internal/platform/resilience/breaker.go:132-150 | a call that ends with its own context's error changes nothing but, at most, the half-open slots in use |
| `BreakerRuns.InvHolds` | eks-microservices-platform/internal/platform/resilience/breaker.go:153-256 | every invariant (phase tags, clock, legal changes, counters against the history, slots, cool-down) survives every concurrent run |
| `BreakerRuns.StepChanges` | eks-microservices-platform/internal/platform/resilience/breaker.go:217-256 | one critical section changes the state at most once, along a legal edge, and notifies just that |
| `BreakerRuns.CountedKept` | eks-microservices-platform/internal/platform/resilience/breaker.go:203-237 | in a closed phase the two counters are exactly the verdicts of the current window in the history, and all of them lie inside it |
| `BreakerRuns.PacedKept` | eks-microservices-platform/internal/platform/resilience/breaker.go:194-245 | the window of a closed phase starts at the very moment the breaker closes, and is not replaced before it has lasted for Window |
| `BreakerRuns.TidyKept` | eks-microservices-platform/internal/platform/resilience/breaker.go:217-245 | outside its own phase every counter is zero |
| `BreakerTheorems.SlotAccounting` | eks-microservices-platform/internal/platform/resilience/breaker.go:137-215 | in every reachable half-open state, trials in flight less older calls finished in the phase is at most the counter, which is at most the trials and the limit; so it is exact when no older call interferes |
| `BreakerTheorems.NeverWedges` | eks-microservices-platform/internal/platform/resilience/breaker.go:153-172 | a call is refused only inside the open timeout or while a full set of trials is in flight |
| `BreakerTheorems.OlderCallFreesATrialSlot` | eks-microservices-platform/internal/platform/resilience/breaker.go:175-191 | from any full half-open state, the cancellation of a call from an earlier phase lets one trial too many in |
| `BreakerCapacity.TrialBoundIffUndisturbed` | eks-microservices-platform/internal/platform/resilience/breaker.go:56-58 | the documented bound on trials holds for the rest of the phase if and only if the counter is exact and no older call is in flight |
| `BreakerCapacity.EveryConfigurationCanExceedTheBound` | eks-microservices-platform/internal/platform/resilience/breaker.go:153-215 | for every configuration there is a run with more than HalfOpenMaxCalls trials in flight |
| `BreakerTheorems.TripIsSound` | eks-microservices-platform/internal/platform/resilience/breaker.go:203-214 | a closed breaker opens only at a failed verdict, with at least MinimumRequests counted verdicts pairwise less than Window apart and the required share of failures |
| `BreakerTheorems.TripsAt` | eks-microservices-platform/internal/platform/resilience/breaker.go:203-214 | a closed breaker opens exactly at a failure whose counts pass the trip test; any other verdict leaves those counts in the counters |
| `BreakerTheorems.SeenIsWindowed` | eks-microservices-platform/internal/platform/resilience/breaker.go:203-237 | the counts a verdict is judged by are the verdicts of the history since the counters were last cleared |
| `BreakerTheorems.NoTripIsMissed` | eks-microservices-platform/internal/platform/resilience/breaker.go:203-214 | in every reachable closed state the failures are below MinimumRequests or below their share |
| `BreakerTheorems.FirstWindowCountsAll` | eks-microservices-platform/internal/platform/resilience/breaker.go:183-245 | until Window has passed since the breaker closed, or was made, its counters are all the verdicts of the phase |
| `BreakerTheorems.EarlyFailuresTrip` | eks-microservices-platform/internal/platform/resilience/breaker.go:183-245 | MinimumRequests failures and no success within Window of that moment leave the breaker closed no longer |
| `BreakerWindow.RollingIsSeenAndForgotten` | eks-microservices-platform/internal/platform/resilience/breaker.go:203-237 | the counts of a rolling window are the counters plus the verdicts of the last Window of time that were cleared away |
| `BreakerWindow.WindowRollsIff` | eks-microservices-platform/internal/platform/resilience/breaker.go:62-63 | for every verdict in every run, the counters are those of the documented rolling window iff no verdict of the phase lies in the last Window of time and before the last clearing |
| `BreakerWindow.WrongDecisionIff` | eks-microservices-platform/internal/platform/resilience/breaker.go:203-237 | a failure due by the rolling counts leaves the breaker closed, or one not due opens it, exactly when taking the forgotten verdicts away changes the test; so only if there are some |
| `BreakerWindow.CanMissIff` | eks-microservices-platform/internal/platform/resilience/breaker.go:203-237 | some run misses a trip that a rolling window would make iff MinimumRequests is at least 2 or FailureRatio is below 1 |
| `BreakerWindow.EveryConfigurationCanTripEarly` | eks-microservices-platform/internal/platform/resilience/breaker.go:203-237 | for every configuration some run trips on a failure that a rolling window would let pass |
| `BreakerDue.DueButClosedIff` | eks-microservices-platform/internal/platform/resilience/breaker.go:205-213 | in every reachable closed state the trip test would pass iff the window holds MinimumRequests verdicts or more, all from the MinimumRequests-th on are successes, and the failures before them reach the ratio of the whole window |
| `BreakerDue.CanBeDueIff` | eks-microservices-platform/internal/platform/resilience/breaker.go:205-213 | a configuration has such a reachable state iff MinimumRequests - 1 failures reach the ratio of MinimumRequests verdicts |
| `BreakerTheorems.RecoveryPath` | eks-microservices-platform/internal/platform/resilience/breaker.go:153-256 | the notified changes are a walk closed, open, half-open, then closed or open; no admission within OpenTimeout of any earlier trip; a half-open phase closes after exactly HalfOpenSuccesses successes without a failure and re-opens at its first failure |
| `BreakerRecovery.ClosingSuccesses` | eks-microservices-platform/internal/platform/resilience/breaker.go:183-201 | the successful trials of a phase that closed the breaker are HalfOpenSuccesses less the older calls that succeeded in it |
| `BreakerRecovery.ClosesByTrialsIff` | eks-microservices-platform/internal/platform/resilience/breaker.go:59-61 | from every reachable half-open state, all ways in which the phase can close the breaker have HalfOpenSuccesses successful trials iff no older call is in flight and none has succeeded in the phase |
| `BreakerRecovery.EveryConfigurationCanCloseWithoutTrials` | eks-microservices-platform/internal/platform/resilience/breaker.go:183-201 | for every configuration some half-open phase closes the breaker with no successful trial |
| `BreakerTheorems.OutageLoadBound` | eks-microservices-platform/internal/platform/resilience/breaker.go:153-229 | while every finishing call fails, at most HalfOpenMaxCalls * floor(T / OpenTimeout) calls are admitted within T of a trip, in every interleaving |
| `BreakerLoad.OutageLoadIsAttained` | eks-microservices-platform/internal/platform/resilience/breaker.go:153-229 | for every configuration and T some run in which every finishing call fails admits exactly that many |
| `BreakerRecovery.AlwaysRecoverable` | eks-microservices-platform/internal/platform/resilience/breaker.go:123-229 | from every reachable state some continuation closes the breaker |
| `Backoff.Config.WithDefaults` | eks-microservices-platform/internal/platform/resilience/retry.go:46-65 | each setting in range is kept and each one out of range gets its default, independently, so the result is valid |
| `Backoff.DelayWithinJitter` | eks-microservices-platform/internal/platform/resilience/retry.go:117-132 | each delay lies within (1 - jitter) and (1 + jitter) of the nominal one |
| `Backoff.DelayIsSpread` | eks-microservices-platform/internal/platform/resilience/retry.go:117-132 | with nominal delay min(Base * 2^(n-1), MaxDelay) and random number u the delay is exactly nominal * (1 - jitter + 2 * jitter * u) |
| `Backoff.Pow2Adds` | eks-microservices-platform/internal/platform/resilience/retry.go:118 | the factor really is a power of two |
| `Backoff.NominalNeverDecreases` | eks-microservices-platform/internal/platform/resilience/retry.go:117-121 | the nominal delay never decreases from attempt to attempt |
| `Backoff.TotalDelayBound` | eks-microservices-platform/internal/platform/resilience/retry.go:117-132 | k delays sum to at most (1 + jitter) times both Base * (2^k - 1) and k * MaxDelay |
| `Retry.Run` | eks-microservices-platform/internal/platform/resilience/retry.go:72-114 | the loop makes attempts 1, 2, ... in turn as long as each is retryable, within budget, deadline and context, and stops exactly at the first that is not |
| `Retry.RunContract` | eks-microservices-platform/internal/platform/resilience/retry.go:67-114 | at most MaxAttempts calls and as many or one fewer sleeps, none reaching the deadline; nil iff the last call succeeded, else its error without the permanent marker; the context's error only if nothing was called |
| `Retry.StopsOnlyForAReason` | eks-microservices-platform/internal/platform/resilience/retry.go:72-114 | another attempt follows iff the error is there and has no Permanent in its chain, and budget, context, deadline and sleep allow it |
| `Retry.PermanentEndsTheRun` | eks-microservices-platform/internal/platform/resilience/retry.go:89-93 | an error with a Permanent anywhere in its chain is the last one, and what the outermost Permanent carries is returned |
| `Retry.AttemptsAreNumbered` | eks-microservices-platform/internal/platform/resilience/retry.go:76-85 | the call is made with the attempts 1, 2, 3, ... in turn |
| `Errors.IsMeansInChain` | eks-microservices-platform/internal/platform/resilience/retry.go:12-21 | one error is another iff that occurs in its chain |
| `Errors.AsPermanentMeansOutermost` | eks-microservices-platform/internal/platform/resilience/retry.go:89-92 | the error found is the one carried by the outermost Permanent of the chain, and there is none iff the chain has no Permanent |
| `Retry.RunIsUnique` | eks-microservices-platform/internal/platform/resilience/retry.go:72-114 | that description admits only one run for given surroundings |
| `Retry.SleepTime` | eks-microservices-platform/internal/platform/resilience/retry.go:102-132 | the first k sleeps of any run take no longer than the backoff bounds |
| `Upstream.Do` | eks-microservices-platform/internal/platform/httpx/client.go:154-193 | no error iff there is a response, which is the reply of the last attempt, with a status below 500 and not 429; the label and the kind of error follow from it; on the breaker's own record every attempt is refused, and told so, or enters and leaves exactly once, with the error and the verdict that its exchange calls for |
| `Upstream.AttemptOutcome` | eks-microservices-platform/internal/platform/httpx/client.go:195-244 | by the breaker and the exchange alone: a refusal, a lost attempt with its error, or the reply as the result, and `result` changes only then |
| `Upstream.ReplyIsReturned` | eks-microservices-platform/internal/platform/httpx/client.go:154-244 | a reply below 500 other than 429, a 404 say, ends the call at its first occurrence and is returned as it is |
| `Upstream.ResultIsReply` | eks-microservices-platform/internal/platform/httpx/client.go:154-244 | a result is the reply of the last attempt, which was admitted |
| `Upstream.TransientIsRetried` | eks-microservices-platform/internal/platform/httpx/client.go:154-244 | a refusal, a 5xx, a 429, and a transport or body error not marked permanent is followed by another attempt whenever budget, context and deadline allow |
| `Upstream.BadURLIsFinal` | eks-microservices-platform/internal/platform/httpx/client.go:195-200 | a URL that cannot be parsed is not tried again, and its own error is reported |
| `Upstream.AttemptsArePaired` | eks-microservices-platform/internal/platform/httpx/client.go:158-167 | for every breaker behaviour, the record kept by the breaker shows each admitted attempt followed by exactly one record or release, the right one, before the next attempt |
| `Upstream.RecordingIsSilent` | eks-microservices-platform/internal/platform/httpx/client.go:158-167 | keeping that record changes nothing for the breaker, the captured result or the errors |
| `SharedBreaker.AttemptsAreARun` | eks-microservices-platform/internal/platform/httpx/client.go:158-167 | whatever other callers do between the client's critical sections, all sections together are a run of the breaker, and after every attempt the client has nothing in flight |
| `SharedBreaker.CallIsPartOfARun` | eks-microservices-platform/internal/platform/httpx/client.go:154-193 | a whole call on a shared breaker in any reachable state is part of a run, so every theorem on runs applies; the client's sections are exactly those on its record, paired |
| `SharedBreaker.OthersAreArbitrary` | eks-microservices-platform/internal/platform/resilience/breaker.go:137-150 | every run of other callers is one of the interferences covered |
| `RetryOverBreaker.OnceOn` | eks-microservices-platform/internal/platform/httpx/client.go:159-166 | one attempt on the breaker object, with any interference by other callers, changes its fields and answers as the closure does |
| `RetryOverBreaker.SickDependencyIsSpared` | eks-microservices-platform/internal/platform/resilience/retry.go:72-114 | a fresh breaker and a patient caller reach an always failing dependency exactly min(MaxAttempts, MinimumRequests) times, and report an open breaker iff MaxAttempts is greater |
| `TokenBucket.Resolve` | eks-microservices-platform/internal/gateway/ratelimit.go:53-77 | a positive rate, burst or TTL is kept; a missing rate is 50, a missing TTL ten minutes, and a missing burst the whole part of the rate |
| `TokenBucket.LevelIsLeastCurve` | eks-microservices-platform/internal/gateway/ratelimit.go:122-136 | while nothing was denied, the tokens a request finds are the least, over all earlier requests, of burst plus refill since then less the requests since then |
| `TokenBucket.AdmissionIsExact` | eks-microservices-platform/internal/gateway/ratelimit.go:110-141 | requests at non-decreasing times are all admitted from a fresh bucket iff every stretch i..j of them has j - i + 1 <= burst + rate * (tj - ti) |
| `LateReadings.OnlyMaximaMatter` | eks-microservices-platform/internal/gateway/ratelimit.go:110-141 | for readings in any order, every answer and the tokens left are those for the highest readings so far |
| `LateReadings.AdmissionInAnyOrder` | eks-microservices-platform/internal/gateway/ratelimit.go:110-141 | for readings in any order, all requests are admitted from a fresh bucket iff the highest readings so far keep within the curve |
| `TokenBucketLaws.RateBoundInAnyOrder` | eks-microservices-platform/internal/gateway/ratelimit.go:110-136 | with clock readings in any order, at most burst plus rate times the advance of the highest reading are admitted, and tokens stay within 0 and burst |
| `TokenBucketLaws.LastIsHighest` | eks-microservices-platform/internal/gateway/ratelimit.go:110-136 | with readings in any order a bucket holds its highest and its latest one |
| `TokenBucketLaws.RetryAfterIsTight` | eks-microservices-platform/internal/gateway/ratelimit.go:133-141 | after a denial with wait d, every request before that time is denied and the first one from then on is admitted, whatever was denied between, iff the burst is not zero |
| `TokenBucketLaws.WaitMeansDenied` | eks-microservices-platform/internal/gateway/ratelimit.go:133-141 | the wait is zero iff the request is admitted, and never negative |
| `TokenBucketLaws.HeaderSeconds` | eks-microservices-platform/internal/gateway/ratelimit.go:159-163 | the header is the wait in whole seconds, rounded down, but at least one |
| `TokenBucketLaws.HeaderSufficesIff` | eks-microservices-platform/internal/gateway/ratelimit.go:150-163 | for all settings, waiting the Retry-After seconds gets every denied client admitted iff the resolved rate is at least one per second |
| `TokenBucketLaws.AdmitsSomethingIff` | eks-microservices-platform/internal/gateway/ratelimit.go:53-59 | a configuration admits any request at all iff it gives a burst, or a rate of at least one per second or none |
| `RateLimiter.Limiter.constructor` | eks-microservices-platform/internal/gateway/ratelimit.go:53-77 | a new limiter has the resolved configuration and no buckets |
| `RateLimiter.Limiter.Allow` | eks-microservices-platform/internal/gateway/ratelimit.go:110-141 | the whole new table and the answer: only the asking client's bucket changes, by one refill and one token |
| `RateLimiter.Limiter.Evict` | eks-microservices-platform/internal/gateway/ratelimit.go:97-106 | exactly the buckets not seen since the cutoff are removed, and the others are untouched |
| `RateLimiter.TableSimulates` | eks-microservices-platform/internal/gateway/ratelimit.go:97-141 | with readings at most d behind earlier ones, a client's entry is its private never evicted bucket, and a missing entry means that bucket is unused or full by any reading still to come |
| `RateLimiter.TransparentWithinIff` | eks-microservices-platform/internal/gateway/ratelimit.go:97-141 | every interleaving of clients and evictions with readings at most d out of order answers each client as a private never evicted bucket would, iff the burst is zero or rate * (IdleTTL - 2d) >= burst |
| `RateLimiter.TransparentIff` | eks-microservices-platform/internal/gateway/ratelimit.go:97-141 | with ordered readings this is so iff rate * IdleTTL >= burst |
| `Ranks.Sort` | eks-microservices-platform/services/scorer/app/scoring.py:63 | the result is sorted and a permutation of the values |
| `Ranks.RankBounds` | eks-microservices-platform/services/scorer/app/scoring.py:62-68 | the value at a rank of the sorted values is at most (at least) b exactly when enough values are |
| `Scorer.MedianInMajority` | eks-microservices-platform/services/scorer/app/scoring.py:62-68 | if strictly more than half of the values lie in [a, b], so does the median, whatever the rest are |
| `Scorer.MadInMajority` | eks-microservices-platform/services/scorer/app/scoring.py:105-107 | and the median absolute deviation is at most b - a |
| `Scorer.HalfIsNotEnough` | eks-microservices-platform/services/scorer/app/scoring.py:62-68 | with exactly half of the values fixed, the others can put the median anywhere above |
| `Scorer.FlatIffMajorityEqual` | eks-microservices-platform/services/scorer/app/scoring.py:109-123 | the zero-dispersion branch is taken iff strictly more than half of the baseline has one value |
| `Scorer.OutvotedBaseline` | eks-microservices-platform/services/scorer/app/scoring.py:109-123 | a baseline of k + 1 readings of one value and k of another takes the flat branch, and any other latest reading saturates the score whatever the threshold |
| `Scorer.MaskingResistance` | eks-microservices-platform/services/scorer/app/scoring.py:71-136 | a latest reading outside the majority's interval by threshold * (b - a) / 0.6745 is flagged, whatever the minority is, also at zero dispersion |
| `Scorer.Reported` | eks-microservices-platform/services/scorer/app/scoring.py:71-136 | the whole outcome for every window: the three rejections in order; else the window size, the median by ranks, and insufficient data with no score, dispersion or anomaly iff there are fewer than eight readings |
| `Scorer.AnomalyIff` | eks-microservices-platform/services/scorer/app/scoring.py:102-136 | the verdict, the score, saturated or not, and the dispersion without divisions, in both branches |
| `Scorer.ScoreIsCapped` | eks-microservices-platform/services/scorer/app/scoring.py:71-141 | the score is never negative and never above the saturation constant |
| `ScorerInvariance.OrderOfBaselineIsIrrelevant` | eks-microservices-platform/services/scorer/app/scoring.py:62-136 | permuting everything but the latest reading leaves the whole outcome, errors included, unchanged |
| `ScorerInvariance.UnitAndOriginAreIrrelevant` | eks-microservices-platform/services/scorer/app/scoring.py:62-136 | mapping every reading x to a * x + c, a not zero, keeps score, verdict and errors, moves the median and rescales the dispersion |
| `Text.NormalIsIdempotent` | eks-microservices-platform/internal/catalog/device.go:42-46 | trimming and lower-casing twice is the same as once |
| `Text.TrimSpaceTakesSpaces` | eks-microservices-platform/internal/catalog/device.go:43-46 | trimming takes off white space, at both ends, and all of it there |
| `Text.LowerByLetter` | eks-microservices-platform/internal/catalog/device.go:43-46 | every capital letter becomes its small one and nothing else changes |
| `Text.LessMeansPrecedes` | eks-microservices-platform/internal/catalog/memory.go:92 | a proper prefix comes first, and otherwise the first different byte decides |
| `Catalog.ValidIdIsNormal` | eks-microservices-platform/internal/catalog/device.go:33-35 | an id that matches the pattern is not empty and is left unchanged by normalisation |
| `Catalog.ValidIdMatchesPattern` | eks-microservices-platform/internal/catalog/device.go:33-35 | an id is valid iff it matches the pattern, for a definition of matching by splitting the string |
| `Catalog.Draft.Validate` | eks-microservices-platform/internal/catalog/device.go:42-69 | the device is normalised in place; the first failing rule is reported, otherwise a missing kind becomes unknown |
| `Catalog.ValidationIsIdempotent` | eks-microservices-platform/internal/catalog/device.go:37-69 | validation accepts exactly the devices that are well formed once normalised and given a kind, returns that device, and accepts it again unchanged |
| `Catalog.RejectionMeans` | eks-microservices-platform/internal/catalog/device.go:48-63 | the reason given is the first rule broken, in order |
| `Catalog.ListRequest.Clamp` | eks-microservices-platform/internal/catalog/device.go:90-100 | site and cursor are normalised and the limit clamped, in place |
| `Catalog.Normalise` | eks-microservices-platform/internal/catalog/device.go:85-100 | a limit from 1 to 200 is kept, none becomes 50, and a greater one 200 |
| `Catalog.PageIsUnique` | eks-microservices-platform/internal/catalog/memory.go:74-100 | the in-memory and the limit-plus-one form of List return the same page: only one page answers given options |
| `CatalogStores.MemoryRepository.constructor` | eks-microservices-platform/internal/catalog/memory.go:26-28 | a new store is empty and well formed |
| `CatalogStores.MemoryRepository.Create` | eks-microservices-platform/internal/catalog/memory.go:45-60 | a valid device with a new id is stored with its time stamps, anything else changes nothing and says why; the store stays well formed and only grows |
| `CatalogStores.CreateMeans` | eks-microservices-platform/internal/catalog/memory.go:45-60 | a device is stored, trimmed and in lower case but for its name, with a kind and both time stamps, iff that is well formed and its id is new; a taken id is the reason iff nothing else is wrong |
| `CatalogStores.MemoryRepository.Get` | eks-microservices-platform/internal/catalog/memory.go:63-72 | the stored, well-formed device of that id, or not found |
| `CatalogStores.MemoryRepository.List` | eks-microservices-platform/internal/catalog/memory.go:76-100 | the page is the first Limit selected devices in id order, with the last id as cursor iff there are more |
| `CatalogStores.PostgresList` | eks-microservices-platform/internal/catalog/postgres.go:165-204 | fetching one row more than the limit and cutting it gives that same page |
| `CatalogStores.CreateAllGrows` | eks-microservices-platform/internal/catalog/memory.go:45-60 | any number of creations keeps the store well formed and leaves every stored device as it is |
| `Pagination.PageByRequest` | eks-microservices-platform/internal/catalog/memory.go:76-100 | of the devices that the request as made selects, in id order, a page has the first ones up to the limit asked for, and the last of their ids as cursor iff there are more |
| `Pagination.CursorSurvives` | eks-microservices-platform/internal/catalog/device.go:91-100 | a cursor handed out by a page reaches the filter unchanged and means what it says |
| `Pagination.WalkIsExact` | eks-microservices-platform/internal/catalog/memory.go:76-100 | following next_cursor to the end gives strictly increasing ids and every matching device that existed at the start, exactly once, even if devices are created between pages |
| `Pagination.QuietWalkIsListing` | eks-microservices-platform/internal/catalog/memory.go:76-100 | without creations the walk is the sorted, filtered store |
| `Pagination.WalkGoesOn` | eks-microservices-platform/internal/catalog/memory.go:76-100 | an incomplete walk can always take its next page |
| `Pagination.WalkIsBounded` | eks-microservices-platform/internal/catalog/memory.go:94-98 | every page but the last is full, so the number of pages is bounded by the store: walks terminate |
| `TimeoutRace.ResponseRecorder.constructor` | eks-microservices-platform/internal/platform/httpx/middleware.go:202 | a new recorder has status 200 and nothing claimed or written |
| `TimeoutRace.ResponseRecorder.WriteHeaderLocked` | eks-microservices-platform/internal/platform/httpx/response.go:64-75 | the header is claimed once, and not after the timeout has the response |
| `TimeoutRace.ResponseRecorder.WriteLocked` | eks-microservices-platform/internal/platform/httpx/response.go:77-93 | a write is dropped after a timeout, claims the implied header first, or goes ahead |
| `TimeoutRace.ResponseRecorder.CountLocked` | eks-microservices-platform/internal/platform/httpx/response.go:95-101 | the bytes sent are added to the count and nothing else changes |
| `TimeoutRace.ResponseRecorder.TryTimeOut` | eks-microservices-platform/internal/platform/httpx/response.go:110-121 | the timeout claims the response iff the handler has not |
| `TimeoutRace.OneSideOwnsTheResponse` | eks-microservices-platform/internal/platform/httpx/middleware.go:195-219 | in every interleaving all output comes from one side, with one status line before any body, and the recorder reports what the handler really sent |
| `TimeoutRace.NothingIsLost` | eks-microservices-platform/internal/platform/httpx/response.go:64-101 | at every moment before a timeout claims the response, what has been handed to the writer and what the current call has still to hand over is exactly what the handler's calls so far ask for |
| `TimeoutRace.SettledResponse` | eks-microservices-platform/internal/platform/httpx/response.go:64-121 | once both sides are done the calls on the writer are the whole timeout response if the timeout claimed it, and else exactly what the handler's calls ask for: the status of the first one and the bytes of every Write, in order |
| `TimeoutRace.LateOutputIff` | eks-microservices-platform/internal/platform/httpx/middleware.go:195-219 | the handler can call the writer after the middleware has returned iff it returned on seeing the deadline with the header written and the handler still at work |
| `TimeoutRace.LateOutputHappens` | eks-microservices-platform/internal/platform/httpx/middleware.go:195-219 | a run in which the middleware returns and the handler can still call the writer |

## Left out

- Backoff.DelayWithinJitter: states the delay before it is cut to whole nanoseconds, because durations are real numbers here.
- RateLimiter.Limiter.Allow: does not model float64 rounding or the cut of the waiting time to nanoseconds.
- CircuitBreaker.Breaker.Do: assumes that the wrapped call does not panic, since the source has no deferred release.
- Upstream.Do: the closure's updates of `result` and of the breaker are passed through the loop as a value, so aliasing is not captured; other callers act between its critical sections, as `SharedBreaker` has it.
- Retry.Run: a `Permanent` marker is taken to carry an error, never nil.
- Text.NormalIsIdempotent: strings are ASCII; Unicode spaces and case folding are not modelled, and both stores share one id order.
- TimeoutRace.OneSideOwnsTheResponse: a handler that writes from one goroutine; headers set through `Header()` and `Flush` bypass the recorder's lock and are not modelled, nor are panics; a call on the writer after the middleware has returned is listed like any other, since what the server does with it is outside the model.
- The HTTP transport, JSON, tracing, metrics, logging and request ids: input and output.
- The Postgres pool, migrations, error redaction and the SQL engine: only the meaning of the listing query is used.
- API keys, health checks, configuration loaders and the request handlers: each claim there is settled by one branch.
- The ticker of the eviction loop and real timers: eviction is a step at any time, sleeping an arbitrary outcome.
- The `OnRetry` hook: it is called once before each sleep that the model lists.
- The profile scripts, Helm charts, Terraform, policies and alert rules.
