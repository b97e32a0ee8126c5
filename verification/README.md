# Verified model of the trading runtime's hard core

The repository runs two-leg arbitrage on prediction markets: it buys the YES and the NO side of a market
together, recovers when only one side trades, and feeds that protocol from order books, dependency graphs and
statistics. This project models its stateful and algorithmic core in Dafny and proves what that core promises.
`dafny verify dfyconfig.toml` checks everything.

| file | models |
|---|---|
| `Execution.dfy`, `Lifecycle.dfy` | the transition table of one execution; the live map, the event log and the restore |
| `Idempotency.dfy`, `PairedRunner.dfy`, `Retry.dfy`, `Restart.dfy` | the idempotency cache over its table; the submit/ack/fill protocol with its cancel and unwind exits; what a second attempt sends; what a restart makes of a finished run |
| `Reservations.dfy`, `CoalescedScan.dfy` | the supervisor's market and capital ledger; the coalesced scan with its deferred timer |
| `Dependency.dfy`, `GreedySelection.dfy`, `MarketGraph.dfy`, `Cohorts.dfy`, `CohortOrder.dfy`, `CohortTies.dfy`, `EdgeCache.dfy` | edges and keys; capped greedy selection; components and their densities; the cohorts' final order and when it is not determined; the LRU cache with ttl, grace and backoff |
| `OrderBook.dfy`, `Sweep.dfy`, `Gates.dfy` | book sides under deltas; the sweep; the gates and the fee model |
| `OrderTracker.dfy`, `FillWaiters.dfy`, `OrderTracking.dfy` | order and trade messages; callers waiting for fills; the tracker object |
| `OrderThrottle.dfy`, `TokenBucket.dfy`, `LearningStats.dfy`, `StatsSnapshot.dfy`, `StatsTracker.dfy` | the sliding-window throttle; the token bucket; statistics with snapshot and tail replay, over any number of restarts; the stored snapshot |
| `Prelude.dfy`, `StableSort.dfy`, `Names.dfy` | options, results, extrema; the runtime's stable sort; the order of names |

Each stateful component has a step function on values, lemmas over every run of it, and a class whose methods
change the source's own fields and are proved to take exactly those steps. Awaits are free choices: whatever the
venue answers, whatever the clock reads and whatever other executions do in between is a parameter, so a claim
holds for all of it.

Assumptions: prices, sizes, confidences and tokens are exact reals; times are integers; ids are strings and keys
are injective; letter case and wording of statuses and errors are abstracted into small enumerations by meaning.
While a paired run waits, other executions that move have other ids: the supervisor reserves the market
(src/core/Supervisor.ts:657-664) and the id is derived from it (src/agents/execution/ExecutionAgent.ts:376-379).
Statistics events are stored at times that never go back, and the live update of an
event reads the clock no earlier. A process hands out nonces upwards from a
thousand times its start time in milliseconds (src/services/PolymarketClob.ts:106); where a contract needs the
stored ones to lie below, it says so.

## Where the code does less than its reader may expect

Each of these is proved, with the exact condition.

- Restore sorts by time, and fills carry the exchange's time: a finished execution can come back, submitted (`Restart.LateAckReappears`) or failed (`Restart.LateFillReappears`); exact conditions `Lifecycle.RestoreIsExactIff`, `Restart.OverStaysOverIff` and, in the runner's own times, `Restart.AttemptStaysOverIff`.
- What a leg bought can stay unsold. Once fills are awaited: when both legs matched and not both in full (`PairedRunner.BothInPartSellsNothing`), when one is full by its status without a matched size (`PairedRunner.FullByStatusIsNeverSold`) or with only a part of it (`PairedRunner.UnreportedPartIsHeld`, `FillWaiters.FullWithPartReported`), or when the sale of the one leg that matched fails (`PairedRunner.FailedSaleIsHeld`); exact conditions `PairedRunner.HoldingIff`, `PairedRunner.LegIsLeftHoldingIff`. Before that: when two good answers come too late or too far apart (`PairedRunner.GoodPairIsCancelledIff`).
- A record saved after its key was failed and ensured anew brings the old nonce back (`Idempotency.StaleSaveBringsNonceBack`, exactly when `Idempotency.SaveBringsNonceBackIff`). The store does not prevent it; the runner never does it (`Retry.RunnerKeepsNonce`).
- A scan can start for nobody (`CoalescedScan.DeferredRequestScansTwice`, `CoalescedScan.LeftoverTimerScansAgain`, `CoalescedScan.LeftoverTimerStartsScan`), exactly when `CoalescedScan.IdleStartIff`; its timer is set exactly when `CoalescedScan.IdleBetweenScansIff`.
- The dependency extractor's backoff is closed by another answer still outstanding when it opened (`EdgeCache.OutstandingSuccessEndsHold`, `EdgeCache.FailureHoldsIff`).
- The order throttle needs a sample cap above the limit less the planned orders (`OrderThrottle.ThrottleHoldsIff`).
- A rate-limited request larger than capacity blocks the queue for ever (`TokenBucket.GrantableIff`).
- The component search skips an empty market id that it dequeues (`Cohorts.ExactIffNoEmptyId`).
- Cohorts that tie keep the order they were found in (`CohortTies.BarsShowOrder`, exact condition `CohortTies.OrderNeverShowsIff`).
- Callers still waiting when their order is cleaned up are never answered (`FillWaiters.CleanupAbandons`, exactly then: `FillWaiters.AbandonedIff`).
- A trade message repeated after its order's cleanup is booked again (`OrderTracker.BookedAgain`, exact condition `OrderTracker.BookedIff`).
- An empty statistics snapshot stops the replay, and later events stored no later than the applied-through time are lost (`LearningStats.EmptySnapshotIsExactIff`, `LearningStats.RestoreIsExactIff`, over any number of restarts `LearningStats.LivesRestoreExactlyIff`); update times come back as stored times (`LearningStats.RestoreIsIdenticalIff`).
- An opportunity without an edge dilutes the average of later ones (`LearningStats.AverageIsMeanIff`).

## Model

| member | source | states |
|---|---|---|
| `Execution.StepKeepsConsistency` | src/domain/execution.ts:200-351 | One accepted event keeps label and flags in agreement, moves the label strictly up a fixed rank or not at all, clears no fill flag, and changes neither id nor terms |
| `Execution.RunsStayConsistent` | src/domain/execution.ts:200-351 | At every point of every accepted event sequence from a new execution the label and the six flags agree, `complete` included, and id and terms are those of the start |
| `Execution.ReachedIff` | src/domain/execution.ts:124-351 | That agreement is exact: a label with a given setting of the six flags is reached by some accepted sequence if and only if they agree |
| `Execution.LabelsAreNeverReentered` | src/domain/execution.ts:124-351 | A label once left is never entered again, over any accepted sequence |
| `Execution.BothFlagsIffBothFilled` | src/domain/execution.ts:237-250 | A run ends with both fill flags set if and only if it passed through `both_filled` |
| `Execution.StuckLabels` | src/domain/execution.ts:332-372 | No event at all is accepted exactly in the three terminal labels and in `unwind_failed` |
| `Lifecycle.ExecutionLifecycle.Transition` | src/agents/execution/ExecutionAgentSupport.ts:118-162 | A transition that throws changes nothing; one that succeeds appends exactly one stamped entry and leaves the live map equal to the replay of the log |
| `Lifecycle.ExecutionLifecycle.Restore` | src/agents/execution/ExecutionAgent.ts:227-244 | The rebuilt map is the replay of the transitions in stable time order, whatever was in the map before |
| `Lifecycle.ExecutionLifecycle.Interleave` | src/agents/execution/ExecutionAgentSupport.ts:118-162 | Whatever other executions do meanwhile, this one's log entries and live state stay as they were and the map still matches the log |
| `Lifecycle.ReplayLookup` | src/agents/execution/ExecutionAgentSupport.ts:118-162 | The live map holds for each id its last logged state, or nothing if that state needs no action |
| `Lifecycle.RestoredLookup` | src/agents/execution/ExecutionAgent.ts:227-244 | The rebuilt map holds for each id its latest state by time, the later stored among equals |
| `Lifecycle.RestoreIsExact` | src/agents/execution/ExecutionAgent.ts:227-244 | For any interleaving of many executions, rebuilding gives exactly the live map when the times of each single execution never go back |
| `Lifecycle.RestoreIsExactIff` | src/agents/execution/ExecutionAgent.ts:227-244 | Exactly when rebuilding differs from the live map: some execution has an entry later than its last one, and the two are not both terminal |
| `Idempotency.RunsKeepAgreement` | src/agents/execution/ExecutionAgentSupport.ts:43-87 | After any sequence of get, ensure, save, fail and prune calls each cached record agrees with the table on all fields but creation time |
| `Idempotency.RunsKeepNoncesBelow` | src/services/PolymarketClob.ts:106 | When callers save only nonces handed out before, and requests without one take theirs from the same counter, every nonce known at any moment of a run lies below the next one, so the next is one that no record has carried since the run began |
| `Idempotency.HandedOutIncreases` | src/agents/execution/ExecutionAgentSupport.ts:56-74 | No nonce is handed out twice in a run, to a record or to a request that carries none, and, with the stored nonces below the next one, none is one the store already knew |
| `Idempotency.NonceIsKeptIff` | src/agents/execution/ExecutionAgentSupport.ts:51-87 | One call keeps a live key live under its nonce if and only if it neither fails nor prunes it nor saves a failed record or one with another nonce |
| `Idempotency.SaveBringsNonceBackIff` | src/agents/execution/ExecutionAgentSupport.ts:51-80 | A record kept aside and saved back, after any calls that save nothing under its key, replaces another nonce by its old one if and only if its key was made anew in between |
| `Idempotency.StaleSaveBringsNonceBack` | src/agents/execution/ExecutionAgentSupport.ts:51-80 | Failed, ensured anew, then saved from before the failure: the old nonce is back |
| `Retry.RunnerKeepsNonce` | src/agents/execution/ExecutionPairedRunner.ts:226-240 | The runner cannot cause that: at every point of its record calls, interleaved with any calls that leave the leg's key to it, the leg is known under its own record's nonce |
| `Idempotency.LiveRecordKeepsNonce` | src/agents/execution/ExecutionAgentSupport.ts:56-80 | Through any calls that neither fail nor prune the key nor save another nonce or no order id under it, a live record keeps its nonce and never loses its order id |
| `Idempotency.LiveOrderIsNotSentAgain` | src/agents/execution/ExecutionPairedRunner.ts:171-187 | A leg whose live record names an order is answered locally however often it is ensured |
| `Idempotency.FailedRecordIsSentAgain` | src/agents/execution/ExecutionAgentSupport.ts:56-80 | After a failure the next ensure takes the next nonce, which no known record carries if stored nonces are below it, and the leg is sent |
| `Idempotency.ExecutionIdempotencyStore.GetRecord` | src/agents/execution/ExecutionAgentSupport.ts:43-49 | The cached record, or else the stored one, which is then cached; nothing else changes |
| `Idempotency.ExecutionIdempotencyStore.SaveRecord` | src/core/EventStore.ts:275-296 | The record is cached as it is, and its row takes all of it but the time it was first stored at; no other row changes |
| `Idempotency.ExecutionIdempotencyStore.EnsureRecord` | src/agents/execution/ExecutionAgentSupport.ts:56-74 | A known record that did not fail is refreshed in its update time alone; any other is made new, pending, without an order, under the next nonce, and only then the counter moves by one |
| `Idempotency.ExecutionIdempotencyStore.MarkFailed` | src/agents/execution/ExecutionAgentSupport.ts:76-80 | A known record is failed at that time and otherwise kept; without one nothing changes |
| `Idempotency.ExecutionIdempotencyStore.PruneRecords` | src/agents/execution/ExecutionAgentSupport.ts:82-87 | Cache and table lose exactly the records not updated since the given time |
| `Idempotency.ExecutionIdempotencyStore.AllocateNonce` | src/services/PolymarketClob.ts:212-216 | Hands out the next nonce and moves the counter, and nothing else |
| `PairedRunner.PairedRun.Execute` | src/agents/execution/ExecutionPairedRunner.ts:131-422 | For every combination of venue answers, rejections, timeouts, skews, fills, unwind answers and moves of other executions: no transition throws, `unwind_failed` is never entered, and the execution is over and out of the live map. A leg is bought exactly when its record failed or names no order, then once, before anything else but buys, for the attempt's size at that leg's own price under its own record's nonce. A cancel names the order's id or else the market; a sale is of the one leg seen filled. Exit, verdict with its reason, label, fill flags, events with their times, and record calls are each decided in the answers', the policy's and the fills' own terms |
| `PairedRunner.ExitIsDecided` | src/agents/execution/ExecutionPairedRunner.ts:192-384 | The exit, stated without the functions that compute it: late, then delayed, refused or skewed pairs are judged by the two responses, pairs without fills to wait for are done, and awaited fills complete the pair, unwind the lone matched leg by no more than the size, or cancel both |
| `PairedRunner.SettledAs` | src/agents/execution/ExecutionPairedRunner.ts:171-187 | A leg whose record is live and names an order counts as taken under that order without asking the venue |
| `PairedRunner.RecordsAre` | src/agents/execution/ExecutionPairedRunner.ts:236-240 | Each answered pair is saved under its known ids with its own nonces and times; a pair that is done is confirmed where it has ids and any other has both records failed |
| `PairedRunner.SubmittedIff` | src/agents/execution/ExecutionPairedRunner.ts:192-351 | An attempt counts as submitted if and only if both legs were answered in time and within the skew, neither delayed nor refused, and, where fills are awaited, both orders have ids and both fills are full |
| `PairedRunner.EndsSafely` | src/agents/execution/ExecutionPairedRunner.ts:131-422 | Every exit ends in `failed` or `complete`, is submitted exactly when both legs are filled and then sends nothing more; with no leg filled it fails with exactly both cancels sent |
| `PairedRunner.SellsNoMoreThanBought` | src/agents/execution/ExecutionPairedRunner.ts:373-384 | An unwind never sells more than the size bought, and less only when that is what its leg alone was seen to match |
| `PairedRunner.HoldingIff` | src/agents/execution/ExecutionPairedRunner.ts:314-384 | With fills awaited after good acknowledgements, and whatever the sale of an unwound leg really sold, some of what a leg bought, a leg that counts as full having bought its whole size, is neither kept as half of a pair nor sold if and only if not both are full and both matched some size, or one is full by its status alone, or one alone matched and less was sold than it bought |
| `PairedRunner.LegIsLeftHoldingIff` | src/agents/execution/ExecutionPairedRunner.ts:314-384 | The same with the sale taken by its answer, as the runner takes it: it falls short exactly when it did not go through or when its leg bought more than the size it asks for, which is the lesser of the matched and the ordered size |
| `PairedRunner.UnreportedPartIsHeld` | src/agents/execution/ExecutionPairedRunner.ts:373-384 | A leg full by its status of which only a part was reported: the part is sold, the execution ends complete, and the rest is still held |
| `FillWaiters.FullWithPartReported` | src/agents/execution/ExecutionOrderTracker.ts:252-268 | The tracker tells its caller just that after a trade of a part and a message that the order is matched without a size |
| `PairedRunner.UnseenFailureSellsIff` | src/agents/execution/ExecutionFailureRecovery.ts:43-67 | A pair that fails before its fills are awaited sells a leg, in its whole size, if and only if exactly one response is successful, and then that leg |
| `PairedRunner.GoodPairIsCancelledIff` | src/agents/execution/ExecutionPairedRunner.ts:257-305 | Two successful responses to fill-or-kill orders: before any fill is looked at both are cancelled and nothing is sold if and only if one came too late, they came too far apart, or fills are to be awaited of an order without an id |
| `PairedRunner.FailedSaleIsHeld` | src/agents/execution/ExecutionFailureRecovery.ts:281-323 | A sale that is refused, throws or times out: the execution ends failed, still holding what its one leg matched |
| `PairedRunner.BothInPartSellsNothing` | src/agents/execution/ExecutionPairedRunner.ts:353-371 | Likewise, both legs matched some size, not both in full: both are cancelled and nothing is sold |
| `PairedRunner.FullByStatusIsNeverSold` | src/agents/execution/ExecutionPairedRunner.ts:353-384 | With fills awaited after good acknowledgements, a leg full by its status alone is never sold: beside a leg that matched in part it is cancelled and that part is sold, beside one that matched nothing both are cancelled |
| `PairedRunner.PairedRun.Acknowledge` | src/agents/execution/ExecutionPairedRunner.ts:226-291 | Saves both acknowledgements, tracks the named ids, and turns a late, delayed, refused or skewed pair, in that order of checks, into a failure exit with its reason |
| `PairedRunner.PairedRun.AwaitFills` | src/agents/execution/ExecutionPairedRunner.ts:293-422 | Without a user channel or time left both legs count as filled; without order ids the pair fails |
| `PairedRunner.PairedRun.ObserveFills` | src/agents/execution/ExecutionPairedRunner.ts:314-384 | Two full fills complete the pair; a leg that alone matched is unwound by what it matched; anything else is judged by the responses |
| `PairedRunner.PairedRun.HandleSubmitFailure` | src/agents/execution/ExecutionPairedRunner.ts:202-217 | A rejection or timeout of either leg ends in an exit chosen by the responses that did arrive, a timeout taking precedence as the reason |
| `PairedRunner.PairedRun.HandleFailure` | src/agents/execution/ExecutionFailureRecovery.ts:43-67 | The leg unwound is the one whose order alone succeeded; otherwise both legs are cancelled |
| `PairedRunner.PairedRun.FailWithCancel` | src/agents/execution/ExecutionFailureRecovery.ts:91-146 | Both legs are cancelled, both records marked failed, and the execution fails whatever the cancels answer |
| `PairedRunner.PairedRun.HandlePartialFill` | src/agents/execution/ExecutionFailureRecovery.ts:148-251 | Only the unfilled leg is cancelled and only the filled one sold; both records are marked failed |
| `PairedRunner.PairedRun.HandleUnwind` | src/agents/execution/ExecutionFailureRecovery.ts:261-323 | The sale's outcome decides between `complete` and `failed`; no path leaves the execution unwinding |
| `PairedRunner.TracksOn` | src/agents/execution/ExecutionAgentSupport.ts:118-162 | One more accepted event keeps the run's log entries a run of the table that avoids `unwind_failed`, and takes a finished id out of the live map |
| `Retry.RetryAfterFailure` | src/agents/execution/ExecutionAgent.ts:403-407 | After a failed attempt, and whatever others call later, both legs are sent again under the next two nonces |
| `Retry.RetryNoncesAreNew` | src/agents/execution/ExecutionAgent.ts:403-407 | Those are nonces no record known before the attempt, at its end or then carries, if the nonces known before it were below the next one and later saves carry nonces handed out |
| `Retry.RetryAfterSuccess` | src/agents/execution/ExecutionAgent.ts:403-407 | After a submitted attempt with named orders neither leg is sent again: both keep nonce and order id |
| `Restart.OverStaysOverIff` | src/agents/execution/ExecutionAgent.ts:227-244 | An execution that is over stays out of the rebuilt map if and only if none of its events is stamped later than its last one, whatever others logged in between; only an earlier attempt's entry under the same id that is later than all of them decides instead |
| `Restart.AttemptStaysOverIff` | src/agents/execution/ExecutionPairedRunner.ts:236-240 | An attempt with any of its exits comes back to life after a restart exactly when its submission, an acknowledgement, its observed fill or the start of its unwind is stamped later than its end |
| `Restart.PlayRun` | src/agents/execution/ExecutionPairedRunner.ts:131-422 | The table accepts the events of every attempt, from a new execution to its end |
| `Restart.LateAckReappears` | src/agents/execution/ExecutionPairedRunner.ts:316-331 | A submitted attempt whose fills the exchange stamped before the acknowledgements arrived is over in the live map and alive in the rebuilt one |
| `Restart.LateFillReappears` | src/agents/execution/ExecutionFailureRecovery.ts:158-166 | So is a failed attempt whose one fill the exchange stamped later than the local end of its sale |
| `Reservations.RunsStayBalanced` | src/core/Supervisor.ts:636-802 | For every interleaving of attempt starts and finishes: running attempts hold disjoint markets whose union is the in-flight set, capital in flight is exactly the sum of their reservations, and neither limit is exceeded |
| `Reservations.IdleHoldsNothing` | src/core/Supervisor.ts:797-802 | When no attempt is running no market is held and the capital is zero again |
| `Reservations.RunningAttemptsAreDisjoint` | src/core/Supervisor.ts:657-664 | Any two running attempts share no market |
| `Reservations.UnionSize` | src/core/Supervisor.ts:637-642 | The projected count, repeats in the basket included, is never below the size the in-flight set will have |
| `Reservations.Supervisor.TryReserve` | src/core/Supervisor.ts:636-665 | Circuit, crowding by the places of markets not in flight, capital by the size at the costs of all markets, and conflict are checked in that order, and only acceptance adds those markets and that capital |
| `Reservations.Supervisor.Release` | src/core/Supervisor.ts:797-802 | A finished attempt gives back exactly what it reserved, however it ended, and the capital never falls below zero |
| `CoalescedScan.NoRequestIsLost` | src/core/Supervisor.ts:478-526 | At most one scan is under way, and a request not yet followed by a start has a timer set, or a running scan with the pending flag set |
| `CoalescedScan.StartsAreSpaced` | src/core/Supervisor.ts:487-495 | Any two scan starts are at least the minimum interval apart for each start between them |
| `CoalescedScan.DeferredScanStarts` | src/core/Supervisor.ts:507-518 | A deferred timer that fires on time starts the scan it was set for |
| `CoalescedScan.IdleBetweenScansIff` | src/core/Supervisor.ts:478-526 | Over every run, between scans once one has started, a timer is set that nobody waits for if and only if the pending flag or a timer was already set when the last scan started and nobody asked since |
| `CoalescedScan.IdleStartIff` | src/core/Supervisor.ts:478-526 | Over every run, a scan starts for nobody if and only if a timer starts it, the flag or a timer was already set when the last scan started, and nobody asked since |
| `CoalescedScan.IdleTimerIff` | src/core/Supervisor.ts:488-526 | Over every run, a scan under way holds a pending flag nobody waits for, which its end answers with a timer, if and only if nobody asked since it started and either the flag was already set then or a timer fired since |
| `CoalescedScan.DeferredRequestScansTwice` | src/core/Supervisor.ts:488-503 | First way: the pending flag of a deferred request outlives the scan that serves it, so one such request is scanned for twice |
| `CoalescedScan.LeftoverTimerScansAgain` | src/core/Supervisor.ts:498-526 | Second way: a timer left over from an earlier scan fires during one that nobody waits for any more, and a third scan follows two served requests |
| `CoalescedScan.LeftoverTimerStartsScan` | src/core/Supervisor.ts:498-526 | Third way: a timer left over from an earlier scan outlives the last one, whose end sets none, and starts a scan by itself |
| `CoalescedScan.ScanCoordinator.ScanCoalesced` | src/core/Supervisor.ts:478-505 | A call starts a scan exactly when none runs and 250 ms have passed since the last start; otherwise it leaves the pending flag and, between scans without a timer, one for the end of those 250 ms |
| `CoalescedScan.ScanCoordinator.ScanDone` | src/core/Supervisor.ts:498-504 | The end of a scan turns the pending flag into a timer 250 ms away, unless one is left over |
| `CoalescedScan.ScanCoordinator.RunDeferredScan` | src/core/Supervisor.ts:507-526 | The callback clears its timer before it asks for a scan |
| `OrderThrottle.ThrottleHolds` | src/agents/execution/ExecutionPreflight.ts:191-237 | Check-then-record keeps every closed window of that length within the limit over the whole run, although each check prunes the list it reads, when sample cap plus planned orders exceeds the limit |
| `OrderThrottle.SmallCapFails` | src/telemetry/metrics.ts:200-205 | With a smaller cap a burst at one instant passes any number of times |
| `OrderThrottle.ThrottleHoldsIff` | src/agents/execution/ExecutionPreflight.ts:191-237 | For attempts of a fixed size the throttle bounds every window of every run if and only if cap plus that size exceeds the limit |
| `OrderThrottle.MetricsStore.RecordOrderAttempt` | src/telemetry/metrics.ts:79-81 | Keeps the newest samples up to the cap |
| `OrderThrottle.MetricsStore.GetOrderVelocity` | src/telemetry/metrics.ts:102-107 | Counts the samples not older than the window, and forgets the others |
| `OrderThrottle.MetricsStore.Attempt` | src/agents/execution/ExecutionPreflight.ts:191-237 | An attempt passes exactly when the samples not older than the window leave room for all it plans, and only then adds them, keeping the newest up to the cap |
| `TokenBucket.GrantsAreLimited` | src/services/RateLimiter.ts:16-40 | Between any two moments at most capacity plus rate times the elapsed time is granted |
| `TokenBucket.GrantsAreCovered` | src/services/RateLimiter.ts:16-40 | What is granted plus what is left never exceeds what was there plus the refill |
| `TokenBucket.GrantedInCallOrder` | src/services/RateLimiter.ts:31-32 | Granted requests followed by waiting ones are all calls in call order |
| `TokenBucket.WaitIsLeast` | src/services/RateLimiter.ts:24-27 | A refused request waits the least whole number of milliseconds, one at least, that brings the tokens it lacks |
| `TokenBucket.GrantedAfterOneWait` | src/services/RateLimiter.ts:19-29 | A request no larger than capacity is granted at once or at its first look after one full wait, on a clock that does not go back |
| `TokenBucket.OversizedRequestBlocks` | src/services/RateLimiter.ts:16-33 | A request larger than capacity is never granted, and nothing behind it is either |
| `TokenBucket.GrantableIff` | src/services/RateLimiter.ts:16-33 | The head of the queue can ever be granted if and only if it is no larger than capacity |
| `TokenBucket.RateLimiter.constructor` | src/services/RateLimiter.ts:9-14 | Capacity is the configured number or one, the bucket starts full, and the rate refills it in one window of a millisecond at least |
| `TokenBucket.NewIsValid` | src/services/RateLimiter.ts:9-14 | Whatever the configuration, a new bucket has a capacity of at least one, a positive rate, and is full; the object keeps its tokens between zero and capacity |
| `TokenBucket.RateLimiter.Acquire` | src/services/RateLimiter.ts:16-33 | The waiting loop takes tokens once, at the first look that finds enough, and otherwise only refills |
| `TokenBucket.RateLimiter.Refill` | src/services/RateLimiter.ts:35-40 | Refills by elapsed time up to capacity and never when the clock goes back |
| `Dependency.SameKeyIff` | src/domain/dependency.ts:219-235 | Two edges have one key exactly when they relate the same two markets alike, in the same direction if the relation has one |
| `Dependency.SortedEndsAre` | src/domain/dependency.ts:219-235 | Sorting puts the ends of an undirected edge in code-unit order and changes nothing else |
| `Dependency.SortingKeepsKey` | src/domain/dependency.ts:219-235 | Sorting the endpoints never changes which edge it is |
| `GreedySelection.SelectionRespectsCap` | src/agents/dependency/DependencyResolver.ts:302-325 | Every market ends with at most the cap |
| `GreedySelection.DroppedEdgesWereBlocked` | src/agents/dependency/DependencyResolver.ts:310-321 | Each qualifying edge dropped has an endpoint already full of edges of at least its confidence |
| `GreedySelection.SelectionIsHalfOptimal` | src/agents/dependency/DependencyResolver.ts:302-325 | Any other selection of qualifying edges with at most the cap at every market has at most twice the total confidence, self-loops included |
| `GreedySelection.GreedyIsHalfOptimal` | src/agents/dependency/DependencyResolver.ts:312-321 | The same for any list in falling confidence and any places already used up |
| `GreedySelection.SelectedKeepsTheStrongest` | src/agents/dependency/DependencyResolver.ts:302-325 | Only edges at least as sure as the policy's minimum are kept, strongest first, no oftener than offered and no more at any market than the policy's whole number, one at least; such an edge is dropped only where one of its markets has all its places taken by edges no weaker |
| `GreedySelection.ApplyPolicyFilters` | src/agents/dependency/DependencyResolver.ts:302-325 | The filter, sort and counting loop give such a selection of the edges, by the method's own parameters |
| `GreedySelection.ResolveCatalogEdges` | src/agents/dependency/DependencyResolver.ts:174-211 | The catalog's loop gives such a selection of the catalog's edges with both ends among the markets |
| `MarketGraph.NeighborsAreJoined` | src/core/Supervisor.ts:1228-1239 | The adjacency map lists exactly the markets that share an edge, both ways |
| `MarketGraph.KeysAreTouched` | src/core/Supervisor.ts:1228-1239 | Its keys are exactly the markets with an edge |
| `MarketGraph.CollectComponent` | src/core/Supervisor.ts:1241-1266 | From any start and any visited set the queue loop finds exactly what a path reaches that enters nothing visited and leaves no empty id |
| `MarketGraph.SearchIsExact` | src/core/Supervisor.ts:1301-1313 | The search over all keys finds exactly the connected components, each once |
| `MarketGraph.ComponentsPartition` | src/core/Supervisor.ts:1301-1313 | Two markets with an edge are in one component if a path joins them, and in disjoint ones otherwise |
| `MarketGraph.FindComponents` | src/core/Supervisor.ts:1301-1313 | The outer loop returns what that search finds |
| `MarketGraph.Flood` | src/domain/dependency.ts:319-334 | The statistics' own queue loop marks exactly what is reachable |
| `MarketGraph.CountComponents` | src/domain/dependency.ts:314-334 | Its counter is the number of sets such a search finds |
| `MarketGraph.BuildAdjacency` | src/core/Supervisor.ts:1228-1239 | The edge loop builds that map |
| `Cohorts.ExtractDeterministicEdges` | src/domain/dependency.ts:265-286 | The two nested loops visit every unordered pair once, in list order |
| `Cohorts.PairIsRelated` | src/domain/dependency.ts:274-283 | Markets are joined exactly when the relation test relates them, whatever the test is |
| `Cohorts.CohortEdgesAre` | src/core/Supervisor.ts:1292-1299 | A cohort search works on exactly the links the test finds between markets of different ids, earlier market first, with its relation and confidence, and the ends sorted unless directed |
| `Cohorts.DeterministicEdgesAreSimple` | src/domain/dependency.ts:265-286 | Distinct ids give no loop and no two edges between the same markets |
| `Cohorts.PairBound` | src/core/Supervisor.ts:1278-1290 | n markets have at most n(n-1)/2 pairs |
| `Cohorts.TreeBound` | src/core/Supervisor.ts:1278-1290 | A component of n markets has at least n-1 pairs |
| `Cohorts.ComponentBounds` | src/core/Supervisor.ts:1278-1290 | A component has n >= 2 markets, n-1 to n(n-1)/2 edges, and a density between 2/n and 1 |
| `Cohorts.CohortsAreComponents` | src/core/Supervisor.ts:1292-1323 | With distinct pairs of non-empty ids the cohorts are exactly the connected components, within those bounds |
| `Cohorts.EmptyIdIsNotExpanded` | src/core/Supervisor.ts:1251-1253 | A pair with the empty id is found as two lone markets and dropped |
| `Cohorts.ExactIffNoEmptyId` | src/core/Supervisor.ts:1292-1323 | For two or more ids the cohorts are the components under every relation if and only if no id is empty |
| `CohortOrder.OrderedCohortsAreComponents` | src/core/Supervisor.ts:1316-1322 | In their final order the cohorts still are exactly the components, each once |
| `CohortOrder.OrderedIs` | src/core/Supervisor.ts:1316-1322 | Sorting keeps each cohort as often as it was found and leaves none before one it should follow |
| `CohortOrder.EdgeOrderIsIrrelevant` | src/core/Supervisor.ts:1292-1323 | With ids free of the joining character the final list depends on which edges there are, not on the order in which they were extracted |
| `CohortTies.OrderNeverShowsIff` | src/core/Supervisor.ts:1316-1322 | For any ids, the order in which the edges were extracted never shows in the final list if and only if the comparison tells any two cohorts apart |
| `CohortTies.BarsShowOrder` | src/core/Supervisor.ts:1321 | Two pairs whose ids join to the same text: the order of their edges shows |
| `CohortOrder.BuildCohorts` | src/core/Supervisor.ts:1292-1323 | The whole search from the market list to the cohorts, with those guarantees for distinct non-empty ids: each with the edges among its markets and their share of all pairs, the denser first, then those with more edges, with more markets, and by their joined ids |
| `CohortOrder.InOrderIsRanked` | src/core/Supervisor.ts:1316-1322 | In the final list each cohort is denser than the next, or as dense with more edges, or with as many more markets, or with as many no later a text |
| `CohortOrder.JoinsWithBars` | src/core/Supervisor.ts:1321 | The text of a cohort is its ids with a bar between one and the next |
| `Cohorts.CountComponentEdges` | src/core/Supervisor.ts:1268-1276 | Counts the edges with both ends inside |
| `Cohorts.KnownJoins` | src/domain/dependency.ts:288-312 | The edges counted join exactly the named markets of the list that the given edges join, loops apart |
| `Cohorts.QualityStats` | src/domain/dependency.ts:288-342 | The component count is the number of connected components of the known, loop-free edges, and coverage is the share of named ids that have one, between 0 and 1 |
| `Cohorts.QualityMatchesCohorts` | src/domain/dependency.ts:288-342 | That separate count equals the number of cohorts |
| `EdgeCache.RunsKeepInv` | src/agents/dependency/DependencyResolver.ts:99-153 | For every interleaving of resolves and extractor answers the cache is within its limit and in order of last use, holds the last write of each key, and serves only writes of the key no older than ttl plus grace |
| `EdgeCache.ServesExactlyTheLastWrite` | src/agents/dependency/DependencyResolver.ts:327-351 | A read hands out exactly the edges last written for the key, never past ttl plus grace |
| `EdgeCache.SequentialServesLastWrites` | src/agents/dependency/DependencyResolver.ts:99-153 | When resolves do not overlap, everything any step of any run serves, a fallback after a failure included, is the last write of its key |
| `EdgeCache.EvictsLeastRecentlyUsed` | src/agents/dependency/DependencyResolver.ts:353-371 | Whatever a write pushes out was last used before everything that stays, and the cache is then full |
| `EdgeCache.RecentKeysAreKept` | src/agents/dependency/DependencyResolver.ts:327-376 | A key used before, not expired, with fewer other keys used since than fit, is still there with its last write |
| `EdgeCache.ExpiredIff` | src/agents/dependency/DependencyResolver.ts:327-351 | A key counts as expired from the read that finds it older than ttl plus grace until it is written again |
| `EdgeCache.NoCallWhileOpen` | src/agents/dependency/DependencyResolver.ts:105-126 | Until the next extractor answer no call is made before the backoff ends |
| `EdgeCache.FailureHoldsCallsBack` | src/agents/dependency/DependencyResolver.ts:129-132 | After a failure asked for at t no call is made before t plus that failure's backoff, until the next answer |
| `EdgeCache.FailureHoldsIff` | src/agents/dependency/DependencyResolver.ts:105-152 | Whatever is resolved and answered afterwards on a clock that does not go back, no call is made before then, if and only if no other answer was outstanding |
| `EdgeCache.OutstandingSuccessEndsHold` | src/agents/dependency/DependencyResolver.ts:144-150 | A success still outstanding closes the backoff, and the next resolve of a new key calls at any time |
| `EdgeCache.DependencyResolver.ReadCachedEdges` | src/agents/dependency/DependencyResolver.ts:327-351 | A hit is an entry no older than the ttl, a stale one no older than ttl plus grace, and either moves to the end; an older one is deleted and a miss |
| `EdgeCache.DependencyResolver.WriteCachedEdges` | src/agents/dependency/DependencyResolver.ts:353-371 | The eviction loop leaves the most recent entries up to the limit |
| `EdgeCache.DependencyResolver.BeginResolve` | src/agents/dependency/DependencyResolver.ts:99-126 | The extractor is asked exactly when the backoff is over and there is no fresh entry; otherwise cached edges, static edges or nothing is used |
| `EdgeCache.DependencyResolver.FinishResolve` | src/agents/dependency/DependencyResolver.ts:126-152 | A failure opens the backoff from the time of asking and falls back on the entry read then; a success closes it and writes |
| `OrderBook.RunsTrackMaps` | src/domain/orderbook.ts:171-218 | Any deltas keep both sides sorted, distinct, positive, with the best levels in the best fields, and with the content of a plain price-to-size map given the same updates |
| `OrderBook.ContentDeterminesSide` | src/domain/orderbook.ts:185-188 | A valid side is the only one with its content: the map says everything about it |
| `OrderBook.BestIsAtHead` | src/domain/orderbook.ts:187-188 | No price in the content is better than the head's |
| `OrderBook.StableSinceLastTopChange` | src/domain/orderbook.ts:187-196 | `stableSinceMs` is the time of the last delta that changed the top of book, or the snapshot's own value if none did |
| `OrderBook.SnapshotIs` | src/domain/orderbook.ts:63-126 | A snapshot lists each level as often as it is received with a size to offer, best price first; what numbers it does not name come from the previous book or else the defaults; the top counts as stable exactly when both best levels are as before |
| `OrderBook.SnapshotIsValid` | src/domain/orderbook.ts:63-126 | A snapshot with distinct usable prices starts a valid book, unusable levels dropped |
| `OrderBook.EditedContent` | src/domain/orderbook.ts:176-183 | Splice, replacement and push each change the content as one map update |
| `OrderBook.ApplyOrderBookDelta` | src/domain/orderbook.ts:171-218 | The edit of copied lists gives the next book: one map update on the side concerned, the positive numbers the delta names, its time, the best levels, and a stable time kept exactly while both best levels stay |
| `Sweep.SweepIsOptimal` | src/domain/orderbook.ts:132-156 | On asks in price order the sweep fills min(size, depth) at the least cost of all ways of taking that amount from the levels, and one way costs exactly that |
| `Sweep.CostIsLeast` | src/domain/orderbook.ts:142-148 | No way of taking an amount is cheaper than level by level |
| `Sweep.AverageAtLeastBest` | src/domain/orderbook.ts:150-153 | The average price is at least the best ask |
| `Sweep.AverageNeverFalls` | src/domain/orderbook.ts:150-153 | The average price never falls as the size grows |
| `Sweep.SweepStaysInTop` | src/domain/orderbook.ts:128-156 | An amount within the depth of the top levels is swept from them alone and is not exhausted |
| `Sweep.SweepCost` | src/domain/orderbook.ts:132-156 | The loop with its early exit computes that sweep: the average times what was filled is the cost, and the book is exhausted exactly when less than the size was filled |
| `Sweep.SumTopLevels` | src/domain/orderbook.ts:128-130 | The sum over the first levels is their depth |
| `Gates.PassIff` | src/domain/gates.ts:256-323 | The gates pass if and only if the books, the edge, the depth and both sweeps meet their conditions |
| `Gates.PassesAtSmallerSizes` | src/domain/gates.ts:113-129 | A pair of valid books that passes at one size passes at every smaller positive size |
| `Gates.PassingSizeStaysInTop` | src/domain/gates.ts:268-302 | With headroom between 0 and 1 a size that passes is swept, in full, from the top depth levels of both books |
| `Gates.PassingWithFeesIsProfitable` | src/domain/gates.ts:516-544 | Passing with fees leaves a swept profit, after the fee the model charges, of at least size * (edgeRequired - tolerance * costPerSet) |
| `Gates.ReasonsAreCalled` | src/domain/gates.ts:256-323 | Each reason is given if and only if the inputs call for it, stated in inequalities over them alone (crossing, spread, age, skew, stability, tick grid, edge, depth, sizes, sweeps), each once and in the source's order; the gates pass exactly when none is called for |
| `Gates.AlignedIsOnGrid` | src/domain/orderbook.ts:165-169 | A price is aligned exactly when some multiple of the tick is within a billionth of it |
| `Gates.EvaluateBaseGates` | src/domain/gateSupport.ts:66-169 | Fatal exactly without valid asks; no reason exactly when books, times and ticks call for none; asks, depths of the first levels and the larger minimum order size as given |
| `Gates.EvaluateGates` | src/domain/gates.ts:256-323 | The whole decision with exactly those reasons, and cost, edge, edge in ticks and size by depth in the inputs' own numbers |
| `Gates.ReasonsWithFees` | src/domain/gates.ts:516-544 | Earlier reasons stand alone; without one the decision is about the edge less twice the taker's basis points, and passes exactly when that is between the required edge and the largest |
| `Gates.EvaluateGatesWithFees` | src/domain/gates.ts:516-544 | The code makes that decision |
| `Gates.FeesLeaveEdge` | src/domain/feeModel.ts:15-18 | Passing with fees means the edge less twice the taker fee still meets the required edge |
| `Gates.ApplyDepthGateChecks` | src/domain/gates.ts:113-129 | Appends the depth reasons and leaves the earlier ones alone |
| `Gates.ApplySlippageChecks` | src/domain/gates.ts:215-229 | Appends the sweep reasons only for a positive size |
| `OrderTracker.RunsKeepTotals` | src/agents/execution/ExecutionOrderTracker.ts:55-149 | For messages in any order with repeats: an order's trade total is the sum over the distinct trade ids since its last cleanup, its matched size the larger of that and the last reported match, and no trade is booked twice for it since its last cleanup |
| `OrderTracker.BookedIff` | src/agents/execution/ExecutionOrderTracker.ts:103-149 | A match is booked if and only if a portfolio is attached, the amount is positive, token, market, side and price are known, and no positive match of that trade came since the order's last cleanup |
| `OrderTracker.BookedAgain` | src/agents/execution/ExecutionOrderTracker.ts:186-198 | A trade message that comes again after its order's cleanup is two fills in the portfolio |
| `OrderTracker.RepeatChangesNothing` | src/agents/execution/ExecutionOrderTracker.ts:106-111 | A trade already seen for the order changes nothing, whatever amount it now carries |
| `OrderTracker.TotalIgnoresOrder` | src/agents/execution/ExecutionOrderTracker.ts:129-130 | With one amount per trade id the total depends only on which trades arrived, not on order or repeats |
| `FillWaiters.RunsKeepInv` | src/agents/execution/ExecutionOrderTracker.ts:151-198 | After every message, wait, timeout or cleanup no queued waiter could already be answered from the stored state, no stored queue is empty, every pending timer belongs to a queued waiter, and nobody is answered twice |
| `FillWaiters.AnswersAreAlwaysTrue` | src/agents/execution/ExecutionOrderTracker.ts:252-304 | Over every run each answer is an outcome derived from the state at that moment, or a timeout while there is none |
| `FillWaiters.AnswersAreTruthful` | src/agents/execution/ExecutionOrderTracker.ts:252-304 | That is, over every run: an outcome says full exactly when the stored matched size reaches the desired one or the stored status is a filled one, is otherwise given only of a cancelled order, and carries the stored size, time and cancelled flag; a timeout is given only of an order that is neither |
| `FillWaiters.QueuedOrdersAreOpen` | src/agents/execution/ExecutionOrderTracker.ts:284-304 | Over every run a waiter is queued only while its order has matched less than it desires, has no filled status and is not cancelled |
| `FillWaiters.OnlyCleanupAbandons` | src/agents/execution/ExecutionOrderTracker.ts:166-198 | Apart from a cleanup no step takes a waiter out of its queue unanswered |
| `FillWaiters.AbandonedIff` | src/agents/execution/ExecutionOrderTracker.ts:151-198 | Over every run a waiter is neither pending nor ever answered if and only if a cleanup of its order came while it was queued |
| `FillWaiters.CleanupAbandons` | src/agents/execution/ExecutionOrderTracker.ts:186-198 | For instance a wait followed by the cleanup of its order |
| `OrderTracking.ExecutionOrderTracker.ResolveFillWaiters` | src/agents/execution/ExecutionOrderTracker.ts:284-304 | Splits a queue into answered waiters, whose timers are cleared, and the rest in order |
| `OrderTracking.ExecutionOrderTracker.HandleUserOrderUpdate` | src/agents/execution/ExecutionOrderTracker.ts:55-101 | An order message replaces of the stored order what it names and leaves the rest, a cancellation once seen included, and then answers whom it can |
| `OrderTracking.ExecutionOrderTracker.ApplyMatch` | src/agents/execution/ExecutionOrderTracker.ts:106-140 | A match counts once per order and trade id, adds its amount to the order, names the order if it is the first word of it, answers whom it can, and is then booked |
| `OrderTracking.ExecutionOrderTracker.HandleUserTradeUpdate` | src/agents/execution/ExecutionOrderTracker.ts:103-149 | A trade message is its taker's match, if the taker is named with a size, followed by each maker's, all under its trade id |
| `OrderTracking.ExecutionOrderTracker.RecordPortfolioFillFromTrade` | src/agents/execution/ExecutionOrderTracker.ts:200-250 | A match is booked exactly when a portfolio is attached and token, market, side and price are known, as the order's own data and else the trade's, the price the other way round |
| `OrderTracking.ExecutionOrderTracker.WaitForFillOutcome` | src/agents/execution/ExecutionOrderTracker.ts:151-184 | Answers at once exactly when the order is full for the caller or cancelled or no time is given, truthfully of the stored order, and otherwise queues the waiter with its timer |
| `OrderTracking.ExecutionOrderTracker.TimeoutFired` | src/agents/execution/ExecutionOrderTracker.ts:167-177 | The waiter leaves its queue and is told what matched so far |
| `OrderTracking.ExecutionOrderTracker.CleanupOrderTracking` | src/agents/execution/ExecutionOrderTracker.ts:186-198 | Forgets the orders, their trades and their waiters, and clears the timers |
| `LearningStats.RestoreIsExact` | src/agents/learning/LearningStatsTracker.ts:84-126 | Loading a non-empty snapshot and replaying only later events gives the counts and averages of a tracker that never restarted when each event is stored in a later millisecond than the updates before it and nothing is pruned, whether or not the tracker that saved the snapshot had itself been restarted |
| `LearningStats.NextIsSaved` | src/agents/learning/LearningStatsTracker.ts:165-203 | A tracker that was restored from a snapshot, lost nothing and ran on saves another such snapshot, although it then counts other events into its applied-through time |
| `LearningStats.LivesRestoreExactlyIff` | src/agents/learning/LearningStatsTracker.ts:84-126 | Through any number of restarts the last restore has the counts and averages of a tracker that never restarted if and only if no life lost a counting event: none was stored, by the time a life was restored, at or before the time its snapshot was applied through; what one life loses no later one makes up for |
| `LearningStats.LivesRestoreExactly` | src/agents/learning/LearningStatsTracker.ts:84-126 | None is lost when each event is stored in a later millisecond than the updates before it |
| `LearningStats.FirstIsSaved` | src/agents/learning/LearningStatsTracker.ts:165-203 | A tracker that never restarted and counted something saves such a snapshot |
| `StatsSnapshot.ParsedReads` | src/agents/learning/LearningStatsTracker.ts:84-122 | A payload of version 1 or 2 with statistics is read: its named markets that are objects, each field under its own name and repaired, its own time or else the present, and its applied-through time if it has one; any other payload is not read |
| `StatsSnapshot.WrittenIsReadBackIff` | src/agents/learning/LearningStatsTracker.ts:169-203 | What is stored is read back unchanged if and only if it has no nameless market and no negative time |
| `StatsSnapshot.LivesAreReadBack` | src/agents/learning/LearningStatsTracker.ts:84-126 | Whatever was read first, the snapshot that the last of any number of lives stored is read back as it was saved |
| `StatsSnapshot.RestartsRestoreExactlyIff` | src/agents/learning/LearningStatsTracker.ts:84-203 | The same from the first stored snapshot of a tracker that counted something, with the store between the lives |
| `LearningStats.RestoreIsExactIff` | src/agents/learning/LearningStatsTracker.ts:84-126 | For stored times that never go back and live updates no earlier than their events, it does so if and only if no counting event after the snapshot was stored at or before the time the snapshot was applied through |
| `LearningStats.RestoreIsIdenticalIff` | src/agents/learning/LearningStatsTracker.ts:84-126 | The times of the last updates come back too, for a snapshot that has them, if and only if moreover each market's last later event was updated in the millisecond it was stored in |
| `LearningStats.EmptySnapshotIsExactIff` | src/agents/learning/LearningStatsTracker.ts:107-114 | An empty snapshot ends the restore: right exactly for a history in which nothing counts |
| `LearningStats.RestoreWithoutSnapshot` | src/agents/learning/LearningStatsTracker.ts:84-105 | Without a usable snapshot the whole history is replayed |
| `LearningStats.CountersCount` | src/agents/learning/LearningStatsTracker.ts:35-74 | Over any events from no statistics on, a market's opportunities, approvals, timeouts and slippage samples are each the number of its events of that kind, and its update time is that of its last counting event |
| `LearningStats.TotalsCount` | src/agents/learning/LearningStatsTracker.ts:35-74 | Each counting event adds exactly one to its market's counts |
| `LearningStats.AveragesAreMeans` | src/agents/learning/LearningStatsTracker.ts:54-67 | Average slippage is the mean of its samples; so is average edge when every opportunity carries an edge |
| `LearningStats.AverageIsMeanIff` | src/agents/learning/LearningStatsTracker.ts:54-58 | For a given order of opportunities with and without an edge the average is the mean of the edges, whatever they are, if and only if none without comes before one with |
| `StatsTracker.PruneKeepsAllIff` | src/agents/learning/LearningStatsTracker.ts:128-163 | Pruning changes nothing exactly when no market is stale and they all fit |
| `StatsTracker.PruneIsDetermined` | src/agents/learning/LearningStatsTracker.ts:144-162 | What pruning keeps is determined by the statistics, the time and the order of names |
| `StatsTracker.LearningStatsTracker.Update` | src/agents/learning/LearningStatsTracker.ts:35-74 | One event adds one to the counter of its kind in its market and to no other, sets the update and applied-through times and the flags, and leaves other markets alone |
| `StatsTracker.PrunedKeepsBest` | src/agents/learning/LearningStatsTracker.ts:128-163 | Whatever pruning gives: nothing outdated stays, no more than the limit, each as it was, and a market not outdated gives way only with the limit reached and to markets all updated later, or as late and first by name |
| `StatsTracker.LearningStatsTracker.Prune` | src/agents/learning/LearningStatsTracker.ts:128-163 | Prunes so when forced or a minute after the last time, and otherwise changes nothing |
| `StatsTracker.LearningStatsTracker.ReplayFromStore` | src/agents/learning/LearningStatsTracker.ts:229-300 | The loop applies the later events in time order and remembers the latest time, counting or not |
| `StatsTracker.LearningStatsTracker.LoadStats` | src/agents/learning/LearningStatsTracker.ts:107-112 | The loop keeps the named, readable markets of a payload with their fields repaired |
| `StatsTracker.LearningStatsTracker.Restore` | src/agents/learning/LearningStatsTracker.ts:84-126 | From the stored payload, malformed or not: the restored statistics, pruned, and the applied-through time; an empty snapshot leaves none |
| `StatsTracker.LearningStatsTracker.MaybePersist` | src/agents/learning/LearningStatsTracker.ts:165-203 | Saves pruned statistics with the applied-through time when forced, or when dirty and the interval has passed |

## Left out

- PairedRunner.PairedRun.Execute: the store calls of other runs between this run's own are not interleaved, and cancel results, incidents, latency metrics, order counts and portfolio snapshots are not modelled, because they feed back into no decision of the run; the unwind price and the advisor's hint are free values.
- PairedRunner.PairedRun.HandleUnwind: the tick arithmetic of the unwind price is a free value of the environment.
- Retry.RetryAfterSuccess: covers attempts whose two orders carry ids; without an id the leg is sent again by design.
- CoalescedScan.NoRequestIsLost: holds between one start and one stop; a scan that outlives a stop and a restart is not modelled.
- EdgeCache.RunsKeepInv: the configuration is fixed during a run; how the market list becomes a cache key, the normalisation of extractor responses and the merging of edge sources are not modelled.
- OrderBook.SnapshotIsValid: number parsing is reduced to finite or not.
- Gates.EvaluateGates: diagnostics carried beside the decision are not modelled.
- TokenBucket.RateLimiter.Acquire: the promise chain that serialises callers is the queue of the step system, not of the object.
- FillWaiters.RunsKeepInv: the bus message and slippage emitted with a booked fill are not modelled.
- StatsTracker.LearningStatsTracker.Restore: stored counts and times are integers; a stored fraction is not modelled.
- The remaining preflight checks, the EV, projection and basket gates, and basket batch execution: branch-by-branch checks without a further invariant.
- Relation heuristics on text, LLM extraction, the OR-Tools sidecar and the Frank-Wolfe loop: arbitrary functions or outside this model.
- Network, WebSocket and SQL mechanics: only their contracts appear, as free answers, a key-value table, an append-only log and a counter.
- Ops server, sessions, dashboard, boot and configuration parsing: interface plumbing.
- Floating-point rounding, locale-dependent string order and hash collisions: replaced by exact reals, a total order and injective keys.
