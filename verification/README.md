# Verified model of the Okta collector's request protocol and bookkeeping

The collector reads an Okta organisation through a rate-limited REST API from many
threads and turns what it reads into rows and telemetry. This project states, in
Dafny, how its concurrent and stateful parts behave, and proves what the rest of the
collector relies on. `dafny verify dfyconfig.toml` checks everything.

How the parts fit together:

- `Throttle` has the pacing state of one endpoint family as a value (`Pacer`), one
  function per operation on it, and the classes of `utils/http.py`, whose methods are
  proved equal to those functions. `Retry` has the retry decisions of one call
  (`Settle`), and `_send_request`'s loop proved equal to their iteration (`Outcome`).
  `Pacing` says what observations and pauses mean for the starts that follow, and
  `RetryLaws` when a call gives up, in terms of the counts of its answers alone.
- `Protocol` puts both into a state machine: any number of callers and families, one
  org gate, steps as small as one semaphore operation, one clock reading or one
  critical section. The clock reading and the org check of `_try_book` are steps of
  their own, before the booking. `ProtocolSafety` proves an inductive invariant,
  `ProtocolTheorems` the results over every reachable state, `ProtocolLiveness` that
  no reachable state is stuck. `ProtocolCalls` proves that each call decides as the
  sequential loop does on its answers, `ProtocolPauses` whom a pause stops, and how long.
- `QuotaLoop` closes the loop of one family with the fixed-window server of the
  rate-limit demo. Booking, beginning, arriving, ending and observing are five steps.
  The in-flight count misses a request that is booked but not begun, or ended but not
  observed; `worstGap` is the largest number of such requests at any observation so far,
  and the slack of the general theorems. With the steps fused it is zero, which
  gives `QuotaSafety` without slack. `QuotaSlack` bounds the slack by the slots and
  proves which reserve is enough.
- `BearerAuth` has the token cache as a class and as functions, `BearerProtocol` any
  interleaving of its callers.
- `Histogram`, `Telemetry`, `Recorder` and `TelemetrySummary` define each telemetry
  figure from the plain list of events, prove that recording and merging agree with
  that definition, and conclude that flush points do not matter. `ExportWriter` is
  the bounded queue and the byte budget of the output file.
- `SamlEvidence` and `SamlRows` are the fold over claim mappings and the allocation of
  row ids, `SamlEvidenceLaws` the evidence in one table; `UserFactors`, `GroupAssignments` and `LruLookup` the collection state.

Times are reals on one monotone clock, quantiles exact rationals. Clock readings,
HTTP answers, header pairs, jitter and the results of parsing are inputs.

Three places where the code does less than one might expect:

- Requests in flight are held back as additional reserve (src/openhound_okta/utils/http.py:404-406),
  but one caught between two steps is not in flight by the counter's account. So a
  paced start can leave less than the reserve, by up to `worstGap`, which is below the
  number of slots (`QuotaLoop.BookingLeavesReserve`). Every paced arrival is admitted, in
  all windows and for all quotas, if and only if the slots are at most the reserve plus
  one (`QuotaSlack.ReserveMustCoverSlots`); for any larger number, and any reserve, a run
  exists in which a start that obeyed every header is refused (`QuotaSlack.SlackIsNeeded`).
  The defaults, 32 slots and a reserve of 1, are on the failing side. Slots here are the
  family's or the org's, whichever are fewer.
- A truncation status is written without checking the file budget. With the summary
  last, as `finish` enqueues it, the budget holds; behind a large summary a data record
  breaks it (`ExportWriter.DataAfterSummaryBreaksBudget`, and the exact condition
  for any order of records in `ExportWriter.BudgetBreaksExactly`).
- A transient NameID mapping still lists its values under `match_values` of its own
  claim; only its canonical list and the evidence's own lists leave them out
  (`SamlEvidence.TransientIsUnsafe`). Unsafe values are offered as match values exactly if
  some transient mapping has an id and resolves to a value
  (`SamlEvidence.TransientOfferedExactly`, with an input in `TransientOfferedExample`).

## Model

| member | source | states |
|---|---|---|
| Throttle.BoundedSemaphore.TryAcquire | src/openhound_okta/utils/http.py:131-133 | a permit or slot is taken exactly if one is free |
| Throttle.BoundedSemaphore.Release | src/openhound_okta/utils/http.py:135-137 | a surplus release is refused and changes nothing |
| Throttle.OrgThrottle.Allows | src/openhound_okta/utils/http.py:139-142 | whether the outage deadline has passed at the given reading |
| Throttle.OrgThrottle.Defer | src/openhound_okta/utils/http.py:144-157 | the clamped delay, and the later of the two deadlines; never moves back |
| Throttle.EndpointThrottle.constructor | src/openhound_okta/utils/http.py:177-213 | default pacing, nothing observed, all slots free |
| Throttle.EndpointThrottle.TryBook | src/openhound_okta/utils/http.py:321-336 | books exactly if org and family deadlines have passed, spaced by the larger of interval and probe floor |
| Throttle.EndpointThrottle.Defer | src/openhound_okta/utils/http.py:338-348 | the clamped delay, the later deadline with its reason, and the raised probe floor |
| Throttle.EndpointThrottle.EnterQueue | src/openhound_okta/utils/http.py:219-222 | one more waiter, whose position is returned |
| Throttle.EndpointThrottle.LeaveQueue | src/openhound_okta/utils/http.py:224-225 | one waiter fewer, nothing else |
| Throttle.EndpointThrottle.BeginHttpRequest | src/openhound_okta/utils/http.py:281-284 | one more active request, nothing else |
| Throttle.EndpointThrottle.EndHttpRequest | src/openhound_okta/utils/http.py:286-288 | one active request fewer, nothing else |
| Throttle.EndpointThrottle.ObserveResponse | src/openhound_okta/utils/http.py:364-436 | the whole new pacing state for missing, unparsable and valid headers; the deadline never moves back |
| Throttle.BookedKeepsDeadline | src/openhound_okta/utils/http.py:332-336 | an admitted booking moves the deadline strictly forward |
| Throttle.DeferredKeepsDeadline | src/openhound_okta/utils/http.py:338-348 | a postponement lasts at least as long as the delay it reports and never shortens another |
| Throttle.ObservedKeepsDeadline | src/openhound_okta/utils/http.py:399-436 | no headers move the deadline back or make the interval zero or negative |
| Throttle.RemembersLatestTightest | src/openhound_okta/utils/http.py:383-397 | after any observations the memory is the largest reset with its smallest remaining count |
| Throttle.ObservationOrderDoesNotMatter | src/openhound_okta/utils/http.py:383-397 | every permutation of the same headers leaves the same memory |
| Throttle.OlderWindowChangesNothing | src/openhound_okta/utils/http.py:396-397 | a response of an older window changes no field at all |
| Pacing.StartsAreEven | src/openhound_okta/utils/http.py:332-335 | bookings made as their deadlines arrive follow each other at equal distances |
| Pacing.UsableWindowIsUsed | src/openhound_okta/utils/http.py:404-436 | with usable requests left, exactly these are started evenly over the time to the reset (or the cap): when the first, each next and the last start |
| Pacing.ExhaustedWindowWaits | src/openhound_okta/utils/http.py:407-421 | at the reserve, the next start is admitted exactly from a second after the reset (or the cap) on, then at the default pace |
| Pacing.ExpiredWindowIsPacedByDefault | src/openhound_okta/utils/http.py:424-436 | headers of a window that has reset bring the default pace from now on |
| Pacing.NoQuotaOnlyEndsProbing | src/openhound_okta/utils/http.py:365-381 | missing headers only end the probing, unreadable ones change nothing |
| Pacing.PauseHoldsStarts | src/openhound_okta/utils/http.py:338-348 | a pause holds the next start exactly for its delay or the cap, and the probe floor holds the following ones apart |
| Pacing.ReasonFollowsDeadline | src/openhound_okta/utils/http.py:332-348 | waits are put down to what moved the deadline last |
| Retry.RetryDelayAtLeastFloor | src/openhound_okta/utils/http.py:791-806 | every delay lies between a positive floor (for a positive backoff factor) and the clamp |
| Retry.SettleBoundsTransients | src/openhound_okta/utils/http.py:617-661 | counting an answer keeps the transient bound, and a call that goes on is below both limits |
| Retry.SendRequest | src/openhound_okta/utils/http.py:573-702 | the loop over its counters ends as the iterated decisions say, after that many sends |
| Retry.EndsWhereItMust | src/openhound_okta/utils/http.py:577-702 | a response is returned exactly for a success; exhaustion only after a 429 or a transient failure |
| Retry.ResendsOnlyAfterRetryable | src/openhound_okta/utils/http.py:586-685 | every resend follows a transient failure, a 429 within its time budget or a refreshing 401 |
| Retry.UnauthorizedAtMostTwice | src/openhound_okta/utils/http.py:590-607 | at most one 401 is resent, so a call sees at most two |
| Retry.TransientFailuresBounded | src/openhound_okta/utils/http.py:564-661 | a call sees at most max_attempts + R - 1 transient failures |
| Retry.SendsAreExplained | src/openhound_okta/utils/http.py:573-702 | a call sends once, and once more per retryable answer |
| RetryLaws.GivesUpExactly | src/openhound_okta/utils/http.py:573-702 | a call stops at the first answer that its counts, its budget or its refresh do not let it survive, ends as that answer says, and goes on after every other |
| RetryLaws.StopsOnce | src/openhound_okta/utils/http.py:573-702 | this determines the ending and the number of sends |
| RetryLaws.ServerErrorsThenSuccess | src/openhound_okta/utils/http.py:641-650 | fewer than max_attempts server errors before a success end in the response, more in exhaustion at max_attempts sends |
| RetryLaws.DelayFollowsCounts | src/openhound_okta/utils/http.py:609-619 | the delay asked for is told by the hint and by the number of such answers before |
| RetryLaws.HintIsHonoured | src/openhound_okta/utils/http.py:791-806 | a server's hint is waited for in full, plus the jitter, up to the clamp |
| RetryLaws.BackoffDoubles | src/openhound_okta/utils/http.py:802-806 | without a hint the delay starts at the backoff factor and doubles up to the clamp |
| Protocol.RunsCompose | src/openhound_okta/utils/http.py:215-262 | interleavings follow one another |
| ProtocolSafety.StepConserves | src/openhound_okta/utils/http.py:215-288 | each atomic step hands over exactly the slot, permit, active and queued count it takes |
| ProtocolSafety.StepKeepsDeadlines | src/openhound_okta/utils/http.py:321-362 | no atomic step moves a family's or the org's deadline back |
| ProtocolSafety.StepKeepsSpacing | src/openhound_okta/utils/http.py:321-336 | each step keeps bookings one interval apart although the clock is read before the lock |
| ProtocolSafety.StepKeepsPauses | src/openhound_okta/utils/http.py:629-661 | granted pauses have passed or lie under a deadline that the caller's next booking must pass |
| ProtocolSafety.StepKeepsCall | src/openhound_okta/utils/http.py:573-702 | each step keeps the counters of a call within their bounds and accounts for every attempt |
| ProtocolSafety.StepKeepsInv | src/openhound_okta/utils/http.py:215-362 | every step of every caller, and the passing of time, keeps the whole invariant |
| ProtocolSafety.ReachableInv | src/openhound_okta/utils/http.py:104-436 | every interleaving over any number of families and callers keeps the invariant |
| ProtocolTheorems.Conservation | src/openhound_okta/utils/http.py:215-288 | free plus held slots and permits equal the caps; the active count is the callers in HTTP, all slot holders; permit holders hold slots |
| ProtocolTheorems.QuietMeansAllReturned | src/openhound_okta/utils/http.py:573-725 | when all calls are over, however they ended, every slot and permit is free and all counts are zero |
| ProtocolTheorems.NeverOverReleased | src/openhound_okta/utils/http.py:264-267 | a release never finds its semaphore full, so nothing is given back twice |
| ProtocolTheorems.BookingsApart | src/openhound_okta/utils/http.py:332-335 | n bookings later, at least n intervals have passed |
| ProtocolTheorems.StartSpacing | src/openhound_okta/utils/http.py:321-348 | bookings keep their interval and their org deadline; a span of length L holds at most floor(L/d)+1 of them |
| ProtocolTheorems.DeadlinesNeverMoveBack | src/openhound_okta/utils/http.py:321-362 | between any two states of a run no deadline moves back |
| ProtocolTheorems.RetryBounds | src/openhound_okta/utils/http.py:573-702 | transient failures, granted 429 pauses and, for a positive floor, attempts of a call are bounded in every interleaving |
| ProtocolTheorems.ElapsedCoversPauses | src/openhound_okta/utils/http.py:629-640 | the elapsed time a 429 is judged by covers all pauses granted before |
| ProtocolCalls.StepFollows | src/openhound_okta/utils/http.py:573-702 | every step of a caller keeps its call in step with the sequential retry loop on the answers it got |
| ProtocolCalls.CallsDecideLikeTheLoop | src/openhound_okta/utils/http.py:573-702 | in every interleaving, a caller leaves exactly when the sequential loop would, and sends again exactly when it would |
| ProtocolCalls.PausesAreAskedFor | src/openhound_okta/utils/http.py:609-661 | in every interleaving, the pause a caller takes is the one its hint and its counts ask for |
| ProtocolCalls.SuccessIsHeard | src/openhound_okta/utils/http.py:583-587 | a success is observed by its family, and no other answer is |
| ProtocolCalls.FamiliesRemember | src/openhound_okta/utils/http.py:383-397 | in every interleaving, a family remembers the latest, tightest quota of all successes its callers settled |
| ProtocolPauses.StartsRespectDeadline | src/openhound_okta/utils/http.py:321-336 | over any run, a family books nothing with a timestamp before the deadline it has now |
| ProtocolPauses.RateLimitPauseHolds | src/openhound_okta/utils/http.py:629-634 | after a 429 no caller books a start of that family before the pause ends; other families and the org are left alone |
| ProtocolPauses.LoneOutagePauseHolds | src/openhound_okta/utils/http.py:350-362 | the same for an outage without an org throttle |
| ProtocolPauses.OutagePausesOrg | src/openhound_okta/utils/http.py:144-157 | an outage moves the org deadline exactly to the end of its pause, and no family's |
| ProtocolPauses.OutagePauseHolds | src/openhound_okta/utils/http.py:350-362 | after an outage no booking of any family whose org check came later has a timestamp before the pause ends |
| ProtocolLiveness.SoloStep | src/openhound_okta/utils/http.py:229-256 | a caller with slot and permit at hand gets strictly closer to its end once deadlines have passed |
| ProtocolLiveness.SoloMove | src/openhound_okta/utils/http.py:215-262 | once its deadlines have passed such a caller acts, and nobody else moves |
| ProtocolLiveness.Drive | src/openhound_okta/utils/http.py:215-262 | such a caller can finish its call while all others stand still |
| ProtocolLiveness.EveryCallCanFinish | src/openhound_okta/utils/http.py:229-256 | from every reachable state all open calls can finish, without any of them raising |
| ProtocolLiveness.DeadlockFreedom | src/openhound_okta/utils/http.py:229-256 | while a call is open, letting time pass enables a step of some open call |
| ProtocolLiveness.WaitersHoldNoPermit | src/openhound_okta/utils/http.py:236-249 | a caller that cannot act without raising holds no org permit |
| QuotaLoop.FixedWindowLimiter.Admit | tools/rate_limit_demo.py:105-122 | opens a window when due, and admits while requests remain |
| QuotaLoop.WindowAdmitsQuota | tools/rate_limit_demo.py:105-122 | of the requests within one window exactly the first quota are admitted |
| QuotaLoop.StepKeepsInv | src/openhound_okta/utils/http.py:399-436 | each of the loop's separate steps keeps the starts still possible before the reset affordable |
| QuotaLoop.BookingLeavesReserve | src/openhound_okta/utils/http.py:321-436 | a paced start leaves the server at least the reserve less the requests an observation missed |
| QuotaLoop.GapWithinSlots | src/openhound_okta/utils/http.py:576-587 | a request holds its slot from booking until after its observation, so an observation misses fewer requests than there are slots |
| QuotaSlack.MissedByObservation | src/openhound_okta/utils/http.py:404-406 | for every reserve, a run in which an observation misses one request more than the reserve |
| QuotaSlack.SlackIsNeeded | src/openhound_okta/utils/http.py:281-288 | for every reserve and more slots than it covers, a run whose paced start is refused by the server |
| QuotaSlack.CoveredSlotsAdmit | tools/rate_limit_demo.py:105-122 | if the slots are at most the reserve plus one, every paced arrival is admitted and the rest of the reserve stays unused |
| QuotaSlack.ReserveMustCoverSlots | src/openhound_okta/utils/http.py:404-436 | with separate steps, all paced arrivals are admitted if and only if the slots are at most the reserve plus one |
| QuotaLoop.MovesCatchNothing | src/openhound_okta/utils/http.py:281-288 | with fused steps no observation ever misses a request |
| QuotaLoop.QuotaSafety | tools/rate_limit_demo.py:95-122 | with fused steps every paced send up to the header's reset is admitted and leaves the reserve unused |
| BearerAuth.OktaBearerAuth.Invalidate | src/openhound_okta/utils/auth.py:362-373 | clears exactly a matching token, with its cooldown |
| BearerAuth.OktaBearerAuth.HandleUnauthorized | src/openhound_okta/utils/auth.py:375-429 | the decision and the cache after a 401; only the current token is ever cleared |
| BearerAuth.OktaBearerAuth.FreshToken | src/openhound_okta/utils/auth.py:431-435 | the lock-free path returns exactly a fresh cached token, which is unexpired |
| BearerAuth.OktaBearerAuth.AccessTokenLocked | src/openhound_okta/utils/auth.py:437-484 | when it fetches, what it returns, exactly when it raises, and the cache after success, survived failure and failure |
| BearerProtocol.IssuedIsScheduled | src/openhound_okta/utils/auth.py:472-484 | fetch time plus half the lifetime <= refresh_at <= expires_at |
| BearerProtocol.StepKeepsInv | src/openhound_okta/utils/auth.py:362-484 | every step of every caller keeps lock, cache, served tokens and rotation sound |
| BearerProtocol.SingleFlight | src/openhound_okta/utils/auth.py:437-484 | at most one fetch runs at a time, under the lock |
| BearerProtocol.TokensServedInTime | src/openhound_okta/utils/auth.py:431-484 | every returned token was unexpired at the call's last check or fetched by the call |
| BearerProtocol.CooldownHoldsFetches | src/openhound_okta/utils/auth.py:440-471 | while a failure cools down a fetch starts only after cooldown or expiry |
| BearerProtocol.CheckServesExactly | src/openhound_okta/utils/auth.py:431-435 | the lock-free check serves the cached token exactly until fetch time + lifetime - min(skew, lifetime / 2) |
| BearerProtocol.FetchStartsExactly | src/openhound_okta/utils/auth.py:437-447 | under the lock a fetch starts exactly if nothing is cached, or the refresh is due and nothing cools down, unless the token has expired |
| BearerProtocol.FailedFetchExactly | src/openhound_okta/utils/auth.py:449-470 | a failed fetch serves the cached token and starts a cooldown exactly if it has not expired and the failure is a timeout, a lost connection, a 429 or a 5xx |
| BearerProtocol.CooldownOverRuns | src/openhound_okta/utils/auth.py:440-471 | the same over any continuation in which nothing was fetched or cleared |
| BearerProtocol.RotationBound | src/openhound_okta/utils/auth.py:362-429 | clearings never exceed successful fetches; distinct tokens are cleared at most once each |
| BearerProtocol.LateUnauthorizedKeepsNewer | src/openhound_okta/utils/auth.py:375-429 | a late 401 for an older token changes nothing |
| BearerProtocol.UnauthorizedClearsExactly | src/openhound_okta/utils/auth.py:375-429 | when a 401 clears, and when it refuses the retry, both as exact conditions |
| Histogram.LatencyDistribution.Observe | src/openhound_okta/telemetry.py:245-264 | the distribution is again the tally of its samples, one more |
| Histogram.LatencyDistribution.Merge | src/openhound_okta/telemetry.py:266-285 | the distribution becomes the tally of both sample lists |
| Histogram.LatencyDistribution.QuantileUpperBound | src/openhound_okta/telemetry.py:307-317 | the least bucket covering the quantile; the final fallthrough is unreachable |
| Histogram.ObserveTally | src/openhound_okta/telemetry.py:245-264 | observing agrees with the tally of the samples |
| Histogram.MergeTally | src/openhound_okta/telemetry.py:266-285 | merging agrees with the tally of the concatenation |
| Histogram.ExtremesAreAttained | src/openhound_okta/telemetry.py:248-259 | minimum and maximum are samples and bound all samples |
| Histogram.BucketsCountSamples | src/openhound_okta/telemetry.py:260-264 | the buckets up to a bound count exactly the samples within it; all together count every sample |
| Histogram.QuantilesAreOrdered | src/openhound_okta/telemetry.py:287-317 | a larger quantile never has a smaller bound, so p50 <= p95 <= p99 |
| Histogram.TargetIsCeiling | src/openhound_okta/telemetry.py:307-317 | the target is the least count that is at least the quantile of all samples |
| Histogram.QuantileInMilliseconds | src/openhound_okta/telemetry.py:307-317 | the reported bound covers ceil(q*count) samples and no smaller bound does |
| Telemetry.SummariesMerge | src/openhound_okta/telemetry.py:340-363 | merging two summaries gives the summary of both event lists' facts |
| Telemetry.MergeAggregates | src/openhound_okta/telemetry.py:340-363 | aggregate(a) merged with aggregate(b) is aggregate(a + b): counts, sums, extremes, sets, last quota |
| Telemetry.ThrottleWaitRecorded | src/openhound_okta/telemetry.py:497-519 | recording a wait adds exactly its facts |
| Telemetry.ExchangeRecorded | src/openhound_okta/telemetry.py:521-564 | recording a response or a transport error adds exactly its facts |
| Telemetry.RetryRecorded | src/openhound_okta/telemetry.py:566-576 | recording a retry adds its category and its delay |
| Telemetry.RetryWaitRecorded | src/openhound_okta/telemetry.py:578-582 | recording a retry wait adds one backoff sample |
| Telemetry.PageRecorded | src/openhound_okta/telemetry.py:584-593 | recording a page adds its rows or the missing count |
| Telemetry.RecordAggregates | src/openhound_okta/telemetry.py:497-593 | recording any event gives the aggregate of the longer history |
| Recorder.TelemetryRecorder.Record | src/openhound_okta/telemetry.py:497-599 | the entry goes to the open interval of its endpoint; a finished recorder ignores it |
| Recorder.TelemetryRecorder.MergeInterval | src/openhound_okta/telemetry.py:665-666 | every endpoint's open measurements are merged into its summary, in any order |
| Recorder.TelemetryRecorder.MoveInterval | src/openhound_okta/telemetry.py:665-691 | the interval is empty afterwards and wholly in the summary |
| Recorder.TelemetryRecorder.CloseInterval | src/openhound_okta/telemetry.py:664-697 | also when its record is dropped at the limit the interval is in the summary; a new one starts now |
| Recorder.TelemetryRecorder.Flush | src/openhound_okta/telemetry.py:654-698 | when a flush closes the interval, the whole ledger after it, and when the next one is due |
| Recorder.TelemetryRecorder.Finish | src/openhound_okta/telemetry.py:601-652 | the first call flushes everything and reports the whole summary; later calls do nothing |
| Recorder.NothingIsLost | src/openhound_okta/telemetry.py:654-698 | for any interleaving of records and flushes, summary with open interval is the aggregate of everything; accepted records stay within the limit |
| Recorder.ClosingsAreCounted | src/openhound_okta/telemetry.py:654-698 | every closed interval is accepted up to the limit and dropped beyond it; a flush with nothing to close counts for neither |
| Recorder.FlushPointsDoNotMatter | src/openhound_okta/telemetry.py:601-698 | after a closing flush the summary depends on the entries alone |
| TelemetrySummary.MeasurementsAreLawful | src/openhound_okta/telemetry.py:320-363 | the program's record and merge satisfy the laws the recorder needs |
| TelemetrySummary.TelemetryIsConserved | src/openhound_okta/telemetry.py:654-698 | per endpoint, summary merged with interval is the aggregate of that endpoint's events |
| TelemetrySummary.SummaryIgnoresFlushPoints | src/openhound_okta/telemetry.py:601-652 | the final summary is the same for all flush points and record limits |
| ExportWriter.WriterLoop | src/openhound_okta/telemetry.py:816-918 | the loop's lines, byte count and flags are those of the record-by-record specification |
| ExportWriter.OutputIsAccounted | src/openhound_okta/telemetry.py:838-916 | the byte count is the size of the lines; at most one is a truncation status |
| ExportWriter.DataLeavesTheReserve | src/openhound_okta/telemetry.py:859-885 | data never enters the summary's reserve, except for the one status line |
| ExportWriter.WriterKeepsBudget | src/openhound_okta/telemetry.py:816-918 | with the summary last: within the budget, at most one status, and a full or compact summary at the end if those two fit the reserve |
| ExportWriter.NothingDroppedSilently | src/openhound_okta/telemetry.py:859-916 | without the truncation flag every record is in the file, in order |
| ExportWriter.WrittenExactly | src/openhound_okta/telemetry.py:859-916 | what the file holds of each record, in any order: in full, shortened, as the status line or not at all, each exactly under its condition on the lines before |
| ExportWriter.TruncatedExactly | src/openhound_okta/telemetry.py:861-887 | the truncation flag is set exactly if some record is not in the file in full |
| ExportWriter.EverythingFits | src/openhound_okta/telemetry.py:816-918 | if all data leave the reserve free and the summary fits the rest, the file is complete and in order |
| ExportWriter.BudgetBreaksExactly | src/openhound_okta/telemetry.py:860-885 | for any records in any order, the exact condition under which the file exceeds its budget |
| ExportWriter.DataAfterSummaryBreaksBudget | src/openhound_okta/telemetry.py:860-885 | two records, summary first, that exceed any allowed budget |
| ExportWriter.ExportQueue.Enqueue | src/openhound_okta/telemetry.py:797-814 | what a full queue drops, and that a priority record always gets in, last |
| SamlEvidence.SamlApplicationAssertionEvidence | src/openhound_okta/models/saml.py:604-713 | the loop over the mappings builds the evidence told mapping by mapping |
| SamlEvidence.AddMapping | src/openhound_okta/models/saml.py:634-702 | one mapping extends each list by exactly its own part |
| SamlEvidence.AddCommon | src/openhound_okta/models/saml.py:671-685 | what a mapping of a common family adds, and when it marks the family incomplete |
| SamlEvidence.IncompleteExactly | src/openhound_okta/models/saml.py:625-713 | a field is incomplete exactly if some mapping of its family is unresolvable, empty or has a non-canonical value, or the list is explicitly empty |
| SamlEvidence.MatchValuesSound | src/openhound_okta/models/saml.py:676-697 | match values are exactly the values of the feeding mappings, without duplicates |
| SamlEvidence.CommonValuesSound | src/openhound_okta/models/saml.py:671-685 | each emitted list holds exactly its family's canonical values, plus login e-mails in the e-mail list |
| SamlEvidence.TransientIsUnsafe | src/openhound_okta/models/saml.py:538-546 | transient mappings feed no list; their claims have no canonical value and repeat the unsafe ones as match values; no other claim has unsafe values |
| SamlEvidence.TransientOfferedExactly | src/openhound_okta/models/saml.py:694-702 | a claim offers unsafe values as match values exactly if some transient mapping has an id and resolves to a value |
| SamlEvidence.TransientOfferedExample | src/openhound_okta/models/saml.py:694-702 | a transient mapping whose claim lists its value as a match value |
| SamlEvidence.NoMappingVanishes | src/openhound_okta/models/saml.py:671-702 | every mapping with an id shows up as match values, a claim value or an incomplete flag |
| SamlEvidence.DistinctKeepsFirstSeen | src/openhound_okta/models/saml.py:477-478 | deduplication keeps first-seen order |
| SamlEvidenceLaws.ListsHoldExactly | src/openhound_okta/models/saml.py:538-581 | each list holds exactly what the mappings destined for it resolve to, folded, parsed or stripped, and the e-mail list login e-mails, too |
| SamlEvidenceLaws.MatchValuesExactly | src/openhound_okta/models/saml.py:671-697 | the match values are exactly what all but transient NameIDs and unknown attributes resolve to |
| SamlEvidenceLaws.SourcePropertiesExactly | src/openhound_okta/models/saml.py:666-691 | the source properties are those of the feeding mappings that resolve to some value |
| SamlEvidenceLaws.FlaggedExactly | src/openhound_okta/models/saml.py:625-675 | a list is flagged exactly if a mapping destined for it resolves to nothing or to a value without the list's form, or the mappings are explicitly empty |
| SamlEvidenceLaws.ClaimsExactly | src/openhound_okta/models/saml.py:687-702 | which mappings leave a claim value, and all its fields |
| SamlEvidenceLaws.ListsGrow | src/openhound_okta/models/saml.py:634-708 | lists are in first-seen order: later mappings only add at the end |
| SamlRows.RouteSourcesNeverMix | src/openhound_okta/models/saml.py:295-354 | explicit routes win; catalog routes are used only without any explicit evidence; no routes always leaves a diagnostic |
| SamlRows.RoutesExactly | src/openhound_okta/models/saml.py:295-354 | which routes an application has, and that its own are marked exactly if the catalog knows one they do not cover |
| SamlRows.FirstFree | src/openhound_okta/models/saml.py:1173-1177 | the least unused index from the preferred one on, for any finite set of used ones |
| SamlRows.Probe | src/openhound_okta/models/saml.py:1173-1177 | the probing loop ends, at the first free index |
| SamlRows.SamlAcsRows | src/openhound_okta/models/saml.py:1166-1200 | the loop gives each route the first index that no earlier route took |
| SamlRows.IndexIsFirstFree | src/openhound_okta/models/saml.py:1166-1200 | a route's index is free of all earlier ones, and all indexes between it and the preferred one are taken |
| SamlRows.AcsIdsDistinct | src/openhound_okta/models/saml.py:1166-1200 | ids are pairwise distinct; a route keeps its own index exactly if no earlier route took it |
| SamlRows.SamlClaimMappingIds | src/openhound_okta/models/saml.py:1059-1141 | the NameID mapping and the usable statements are numbered as they come |
| SamlRows.ClaimMappingsExactly | src/openhound_okta/models/saml.py:1059-1141 | one mapping for the NameID template and one per usable statement, numbered from zero |
| SamlRows.ProviderReferencesResolve | src/openhound_okta/models/saml.py:1034-1056 | a provider's ACS, issuer and claim-mapping ids exist exactly when the rows are emitted |
| SamlRows.SamlSpAcsRows | src/openhound_okta/models/saml.py:1287-1393 | the rows of metadata endpoints, shared URL and trust-specific alias |
| SamlRows.SpAcsRowsDistinct | src/openhound_okta/models/saml.py:1287-1393 | ids number the rows, URLs are distinct, and an alias has an index above all others |
| SamlRows.SpAcsUrlsExactly | src/openhound_okta/models/saml.py:1287-1393 | exactly which URLs have a row: the metadata's, else the shared one, and the alias if the shared one is among them |
| SamlRows.ServiceProviderReferencesResolve | src/openhound_okta/models/saml.py:1203-1284 | issuer, ACS, rule and rule-field ids exist exactly when the rows are emitted |
| SamlRows.RuleOnlyWhenProven | src/openhound_okta/models/saml.py:879-949 | a rule row exactly for a policy that proves an automatic, unscoped username match |
| SamlRows.ResolutionNamesTemplateField | src/openhound_okta/models/saml.py:879-949 | a field is named exactly without complaint, and then the template's |
| UserFactors.UserFactorClaims.Claim | src/openhound_okta/source.py:519-534 | grants exactly the first claim of each user |
| UserFactors.FetchedAtMostOnce | src/openhound_okta/source.py:726-742 | however the streams interleave, no user is fetched twice |
| UserFactors.FetchedExactly | src/openhound_okta/source.py:726-742 | once all streams are done exactly the users handed to them have been fetched |
| UserFactors.CountReadsBackTheFetch | src/openhound_okta/lookup.py:307-338 | the count is None exactly without a successful fetch, else the number of active factors, 0 through the marker row |
| UserFactors.FactorRowsCount | src/openhound_okta/source.py:682-694 | the rows of one fetch are never empty and count back its active factors |
| GroupAssignments.ApplicationGroupAssignmentRows | src/openhound_okta/source.py:887-942 | ends normally exactly for usable, consistent items; one row per group in first-seen order; rows plus duplicates are the items; which item causes which error |
| GroupAssignments.RowsNameGroupsOnce | src/openhound_okta/source.py:924-929 | the rows name every group of the items exactly once |
| GroupAssignments.RowsCarryEvidence | src/openhound_okta/source.py:912-929 | a group's row carries the evidence of every item of the group |
| GroupAssignments.RowsGrow | src/openhound_okta/source.py:924-927 | rows come in first-seen order |
| LruLookup.OktaLookup.UserSamlContext | src/openhound_okta/lookup.py:180-210 | answers like the direct query, holds at most 128 entries, and its keys in order are the most recently used distinct found users |
| LruLookup.LastSeenIsDistinct | src/openhound_okta/lookup.py:180-210 | the recency list has every found user exactly once |
| LruLookup.NewestAfterUse | src/openhound_okta/lookup.py:187-192 | moving a hit to the end, or evicting the first key for a new one, keeps the newest users of the history |
| LruLookup.HitAgrees | src/openhound_okta/lookup.py:187-192 | reinserting a hit keeps the cache in step with the history |
| LruLookup.MissAgrees | src/openhound_okta/lookup.py:204-209 | storing into a cache with room keeps it in step |
| LruLookup.FullMissAgrees | src/openhound_okta/lookup.py:206-209 | storing into a full cache evicts the least recent user, and only that one |

## Left out

- HTTP transport, pagination, dlt pipelines, pydantic models, XML parsing, JWT signing, the command line and container preflight: I/O or foreign libraries.
- DuckDB and SQL text: tables are sequences of rows. Canonical JSON with SHA-256 is an injective function on the evidence.
- URL, regex, ISO-duration and header parsing, endpoint templates, case folding and UUID parsing: their results are inputs. `Retry-After` (section 10.2.3 of RFC 9110) enters as a number of seconds.
- Float rounding, wall-clock jumps, logging, and the time limits of thread joins.
- Node and edge emission, role-assignment edges, admin filtering, the OIN catalog, validators, the Entra tenant memo and the access-denied breaker: set unions and tables. The OIN result is an arbitrary input of `SamlRoutes`.
- Telemetry calls and the 401 handler are taken not to raise inside `_send_request`; an exception that arrives between taking a semaphore and recording that fact, or while waiting in the family's queue, is not modelled. An output location that disables telemetry is not, either.
- `EndpointThrottle.wait`, which books without a slot and which no request path uses; the wait-time figures of `acquire`.
- Retry.SendRequest: plays one call against scripted answers with their elapsed times and granted pauses; where those come from, and that every interleaved call behaves like this, is proved of the state machine (ProtocolCalls, ProtocolTheorems.ElapsedCoversPauses). The shared read-timeout budget enters as the limit R in force.
- ProtocolLiveness.EveryCallCanFinish: says that a finishing continuation exists, not that a fair scheduler takes it.
- QuotaLoop.QuotaSafety: one family and one collector; a request counted by the server whose answer is lost stays outstanding. When the window has run out at the send itself, keeping the reserve needs a reserve below the quota.
- Telemetry.RecordAggregates: per-endpoint measurements are values in the recorder's map, so updates in place through an alias are not captured; a Counter is a multiset, and the quota observation an opaque text of which the last one counts.
- Recorder.TelemetryRecorder.Record: the finished flag is read without the lock in the program, so an event recorded by a racing thread after the closing flush is outside the statement.
- ExportWriter.WriterLoop: a record is its encoded size; I/O errors, encoding errors and the flags copied into the summary's text are left out.
- ExportWriter.ExportQueue.Enqueue: one atomic step; a producer that wins the freed place on the eviction path is not modelled.
- SamlEvidence.SamlApplicationAssertionEvidence: profile values, parsed expressions and the text functions are inputs.
- SamlRows.AcsIdsDistinct: ids are values of a datatype with one constructor per prefix; that their text forms differ too is taken for granted.
- UserFactors.CountReadsBackTheFetch: a factor item is taken to carry an id and no `user_id` of its own; a fatal fetch error ends its stream only, while in the program it also stops the pipeline.
- GroupAssignments.ApplicationGroupAssignmentRows: rows are collected rather than yielded lazily; pages are concatenated.
