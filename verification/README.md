# Escrow backend: verified models

Dafny models of the hard parts of an escrow platform's backend on Stellar: its event indexer, its webhook
delivery and its money arithmetic. `dafny verify dfyconfig.toml` checks everything.

**Concurrency.** JavaScript interleaves only at `await`, so a protocol is a state machine whose atomic steps
are the code between awaits. `PromiseTailLock` is the per-key lock built from a map of promise tails;
`EventInsertLocks` nests it over the sorted keys of a batch; `RpcEventQueue` is the de-duplicating insert queue
that uses it; `RangeLocks` is the lock that waits only on overlapping ledger ranges; `JobStateCache` fences
stale cache writes with generation numbers; `DeliveryQueue` is the promise chain behind deliveries and event
writes. Each has an invariant over all interleavings and a theorem that no reachable state is stuck: some call
can always go on (`PromiseTailLock.FirstIsReady`, `JobStateCache.LookupsGoOn`, and `NeverStuck` or `NeverStalls`
elsewhere). The classes `EventInsertLocks.EventInserter`, `RpcEventQueue.EventQueue`,
`RangeLocks.RangeLockTable`, `JobStateCache.Cache` and `DeliveryQueue.Deliveries` hold the source's fields; in the
first three a method `Advance` takes any possible step and keeps the invariant, in the other two there is one
method for each kind of step. `PromiseTailLock` has no class of its own: the first two classes contain its map.
`SubmittedEvents` says what a submit stores, by contract, ledger and type, and `SubmitOutcome` when a submit that
resolves has its rows stored. `FieldKeys` says when a text made of such parts tells them apart.

**Indexing and delivery.** `EventLog` is the RPC as a ledger-ordered sequence of events with a cursor position.
`RangeFetch` walks a historical range by pages and cursors; `EventTable` is the insert-or-ignore table with its
records of gaps and undecodable events, and `GroupPoller` the live page loop with its pointers and retention
clamp; `JobParticipants` is the derived wallet index and its paged query; `WebhookDelivery` delivers a range page
by page; `RetrySweep` retries the outbox; `NodeFailover` keeps node health; `RouteLimiter` is the per-key request
limiter. The paged or indexed form is proved equal to the naive one, or the exact condition is given under which
it is.

**Exact arithmetic and text.** `Rounding` is division in five modes over truncating division; `BracketTax`,
`ShareSplits`, `FixedDecimals` and `CentsText` (which texts are amounts, and of what value) build on it; `CsvText`
and `FeeCsv` are the CSV printer and parser.
`Amounts`, `DecimalText`, `StringOrder`, `Sums`, `Whitespace` and `Wrappers` are shared helpers.

## What the code does not do

Where a natural property fails, the models keep the code as it is, name an input, and give the exact condition:

- A poll may put the pointer at a ledger it has not finished: cut by the page cap (`GroupPoller.CapLosesAnEvent`),
  after a full page without a cursor (`GroupPoller.MissingCursorLosesLedgers`), or at a head the RPC had not seen
  (`GroupPoller.UnnamedHeadLosesAnEvent`). `GroupPoller.PollIsCompleteOnItsInputs` is the exact condition for every
  ending, `GroupPoller.SteadyPollIsCompleteUnless` the one a caller can check for a healthy RPC, and
  `GroupPoller.MissedForGood` the consequence. The comment at src/indexer/poller.ts:894-900 promises that the
  pointer stays at the last ledger fully stored.
- A `submit` may resolve before its rows are stored (`RpcEventQueue.ResolvedBeforeStored`, and from every state in
  which another caller has one in hand, `SubmitOutcome.CanResolveTooSoon`). The exact conditions are
  `SubmitOutcome.ResolvesStoredExactlyWhen` at the step that resolves and
  `SubmitOutcome.ResolvedMeansStoredExactlyWhen` before the call.
- `toCentsExact` accepts junk behind an exponent, an exponent without a mantissa and a second point
  (`CentsText.JunkAfterTheExponentIsRead`, `CentsText.MissingMantissaIsRead`, `CentsText.SecondPointIsRead`).
  `CentsText.RefusedExactlyWhen` says which texts it refuses.
- A ledger page with more events than the request cap carries loses the rest (`RangeFetch.FetchIsTheFilteredLog`),
  against the comment at src/indexer/rpc-poller-client.ts:795-798.
- A contract or type with a separator in it can make two events share an identity, so that one is dropped
  (`SubmittedEvents.AnotherEventIsDropped`; exactly when by `SubmittedEvents.MistakenExactlyWhen` and
  `JobParticipants.MistakenExactlyWhen`).
- A tax schedule need not end with a catch-all, against the comment at
  src/utils/tax_deduction_estimator.ts:1107-1111; what lies above its last bound goes untaxed
  (`BracketTax.AboveTheLastBoundIsFree`).
- An empty label does not survive the CSV round trip (`FeeCsv.FeeBlockRoundTripIsExact`).
- Rounded percentages may pass the base (`ShareSplits.SixSixthsPassTheBase`, exactly when by
  `ShareSplits.AllocateByPercentage`), and a zero weight may get dust (`ShareSplits.ZeroWeightTakesTheUnit`, exactly
  when by `ShareSplits.ZeroWeightGetsDustByPosition`).
- A window may accept 2 floor(max) - 1 requests, not max (`RouteLimiter.BoundIsReached`); it keeps to max exactly
  for the settings of `RouteLimiter.MaxIsKeptExactlyWhen`.
- A success can mark a healthy node unhealthy (`NodeFailover.SuccessUnsettlesAHealthyNode`, exactly
  when by `NodeFailover.SuccessCanUnsettle`).

## Model

| member | source | states |
|---|---|---|
| `PromiseTailLock.RequestKeepsInv` | src/indexer/db.ts:1616-1622 | Asking for a lock (chain behind the tail, become the tail) keeps the lock invariant |
| `PromiseTailLock.GrantKeepsInv` | src/indexer/db.ts:1624-1629 | Letting a waiter in once its predecessor chain has settled keeps the invariant |
| `PromiseTailLock.ReleaseKeepsInv` | src/indexer/db.ts:1630-1635 | Releasing, and dropping the map entry only if it is still one's own tail, keeps the invariant |
| `PromiseTailLock.MutualExclusion` | src/indexer/ledger-range-tracker.ts:710-733 | Two holders of the same key are the same call |
| `PromiseTailLock.TailsTrackHoldersAndWaiters` | src/indexer/db.ts:1608-1610 | The tails map has a key exactly while some call holds or waits for it, so the map never leaks |
| `PromiseTailLock.ReleasedMeansSettled` | src/indexer/db.ts:1616-1625 | A released call's tail has settled: no earlier call on the key is still open |
| `PromiseTailLock.FirstIsReady` | src/indexer/rpc-poller-client.ts:575-587 | A call with no open predecessor can be let in |
| `EventInsertLocks.BatchKeys` | src/indexer/db.ts:1679-1687 | The keys of a batch are strictly ascending and are exactly the lock keys of its events |
| `EventInsertLocks.StepKeepsInv` | src/indexer/db.ts:1638-1648 | Every step of nested ordered acquisition keeps the invariant over batches, locks and inserts |
| `EventInsertLocks.NeverStuck` | src/indexer/db.ts:1669-1692 | Deadlock freedom: while a batch is unfinished, some batch can take a step |
| `EventInsertLocks.StepCountsDown` | src/indexer/db.ts:1638-1648 | Each step lowers the total work left by exactly one |
| `EventInsertLocks.RunKeepsInv` | src/indexer/db.ts:1638-1692 | Every state of every interleaving satisfies the invariant, and step i has exactly i units of work behind it |
| `EventInsertLocks.RunsFinish` | src/indexer/db.ts:1675-1692 | A run with no step left has every batch done, inserted exactly once each, all locks gone, after exactly the predicted number of steps |
| `EventInsertLocks.BatchesExcludeAndQueue` | src/indexer/db.ts:1612-1648 | On a shared key the earlier request releases before the later one enters, and inserts follow request order |
| `EventInsertLocks.LocksTellEventsApart` | src/indexer/db.ts:1588-1594 | Where contracts hold no colon and none is called id, two events share a lock if and only if they have the same id, or no id and the same contract, ledger and type |
| `EventInsertLocks.CommonEventExcludes` | src/indexer/db.ts:1669-1692 | Two batches with a common event need a common lock, and in no reachable state hold it both |
| `EventInsertLocks.InsertsHoldingAll` | src/indexer/db.ts:1638-1692 | A batch inserts at the step that gives it its last lock, and then holds every lock of its events |
| `EventInsertLocks.EventInserter.constructor` | src/indexer/db.ts:1581 | A fresh lock table with the given batches of events is an initial state, each batch with the keys of its events |
| `EventInsertLocks.EventInserter.Call` | src/indexer/db.ts:1616-1622 | The map update is the specified request |
| `EventInsertLocks.EventInserter.AcquireFrom` | src/indexer/db.ts:1638-1648 | With keys left the next one is requested, with none left the insert runs |
| `EventInsertLocks.EventInserter.Granted` | src/indexer/db.ts:1625-1629 | Coming back from the await is the specified resume step |
| `EventInsertLocks.EventInserter.Unlock` | src/indexer/db.ts:1630-1635 | The finally block is the specified unwind step |
| `EventInsertLocks.EventInserter.Advance` | src/indexer/db.ts:1612-1648 | Any enabled step of the code is the specified step and keeps the invariant |
| `JobStateCache.StepKeepsInv` | src/indexer/job-state-cache.ts:42-77 | Lookup, load completion, rejection, answer, eviction and invalidation all keep the cache invariant |
| `JobStateCache.RunKeepsInv` | src/indexer/job-state-cache.ts:42-77 | Every state of every interleaving satisfies the invariant |
| `JobStateCache.AnswersAreFresh` | src/indexer/job-state-cache.ts:42-69 | An answered lookup got the value of a load of its own generation, started after the last invalidation the lookup had seen |
| `JobStateCache.CacheIsCurrent` | src/indexer/job-state-cache.ts:54-58 | A cached entry is the non-null result of a settled load of the current generation, started after the last invalidation |
| `JobStateCache.OneRunningLoad` | src/indexer/job-state-cache.ts:49-61 | At most one load per contract and generation is running |
| `JobStateCache.InFlightIsCurrent` | src/indexer/job-state-cache.ts:61-68 | The in-flight entry of a contract is always a load of its current generation |
| `JobStateCache.LookupsGoOn` | src/indexer/job-state-cache.ts:42-69 | No lookup is stuck: it can be answered, or the load it waits for is running and free to end |
| `JobStateCache.NextLookupLoads` | src/indexer/job-state-cache.ts:42-69 | Once every lookup of a contract has come back and nothing is cached, the next one starts a load of its own, also after a rejection or a null |
| `JobStateCache.RunningLoadIsShared` | src/indexer/job-state-cache.ts:46-47 | While a load of the current generation runs, a lookup of its contract starts none and waits for it |
| `JobStateCache.SettledAnswersFromCache` | src/indexer/job-state-cache.ts:42-58 | A non-null value of a load of the current generation answers every later lookup at once, until it is evicted or invalidated |
| `JobStateCache.NothingCachedWithoutTtl` | src/indexer/job-state-cache.ts:54 | With a TTL of zero nothing is ever cached |
| `JobStateCache.TimePasses` | src/indexer/job-state-cache.ts:73-77 | Times rise with every step, and the time of the last invalidation of a contract changes with its invalidations only |
| `JobStateCache.Cache.constructor` | src/indexer/job-state-cache.ts:17-29 | The empty module state |
| `JobStateCache.Cache.GetCachedJobState` | src/indexer/job-state-cache.ts:42-62 | Cache hit, join or new load: the new state is the specified lookup, and the result says which it was |
| `JobStateCache.Cache.LoadSettled` | src/indexer/job-state-cache.ts:53-59 | A settled load writes the cache only when its generation is current, its value non-null and the TTL positive |
| `JobStateCache.Cache.RequestDone` | src/indexer/job-state-cache.ts:62-69 | The finally block clears the in-flight entry only when it is the caller's own |
| `JobStateCache.Cache.InvalidateJobState` | src/indexer/job-state-cache.ts:73-77 | Invalidation bumps the generation and drops the cached and in-flight entries |
| `JobStateCache.Cache.InvalidateJobStateForEvents` | src/indexer/job-state-cache.ts:80-84 | Each contract named in the rows is invalidated exactly once, all others stay as they were |
| `RpcEventQueue.EnqueueAppends` | src/indexer/rpc-poller-client.ts:608-622 | Enqueue appends the taken rows to pending, and pendingKeys grows by exactly their keys |
| `RpcEventQueue.EnqueueTakesNewKeys` | src/indexer/rpc-poller-client.ts:609-613 | Taken rows have pairwise distinct keys, none pending or persisted before |
| `RpcEventQueue.EnqueueBounded` | src/indexer/rpc-poller-client.ts:614-618 | pending never exceeds maxQueueSize; without overflow every offered key is afterwards known |
| `RpcEventQueue.StepKeepsInv` | src/indexer/rpc-poller-client.ts:603-682 | Every atomic stretch of submit, with persists that may throw, keeps the invariant |
| `RpcEventQueue.EnterKeepsInv` | src/indexer/rpc-poller-client.ts:643-646 | A row that gets its lock is never already persisted: the in-lock duplicate branch is unreachable |
| `RpcEventQueue.NeverStuck` | src/indexer/rpc-poller-client.ts:571-661 | While a caller is unfinished some caller can take a step |
| `RpcEventQueue.StepCountsDown` | src/indexer/rpc-poller-client.ts:603-682 | Every step lowers a measure of the work left |
| `RpcEventQueue.RunKeepsInv` | src/indexer/rpc-poller-client.ts:497-682 | Every state of every interleaving satisfies the invariant, and the measure bounds the run |
| `RpcEventQueue.AtRestAllIsOver` | src/indexer/rpc-poller-client.ts:628-661 | Where no step is possible every caller has resolved or rejected, no lock is left and accepted rows are pending, persisted or failed |
| `RpcEventQueue.RunsFinish` | src/indexer/rpc-poller-client.ts:664-681 | No run is longer than its initial measure, and one that cannot go on is over in the sense above |
| `RpcEventQueue.AllResolvedMeansAllStored` | src/indexer/rpc-poller-client.ts:664-681 | If every submit resolved, the queue is empty, nothing failed, and each submitted row's identity was persisted exactly once |
| `RpcEventQueue.QueueIsSafe` | src/indexer/rpc-poller-client.ts:497-682 | In every reachable state keys in the queue and in flight are distinct and equal pendingKeys, no identity is persisted twice, rows are conserved, and no two callers persist the same identity at a time |
| `RpcEventQueue.ResolvedBeforeStored` | src/indexer/rpc-poller-client.ts:664-681 | A run in which a submit resolves while another flusher still holds its row: resolution of one call alone promises nothing |
| `RpcEventQueue.EventQueue.EnqueueRows` | src/indexer/rpc-poller-client.ts:603-626 | The loop computes the specified queue, overflows exactly when specified, and its two counts add up to the rows offered |
| `RpcEventQueue.EventQueue.ShiftRow` | src/indexer/rpc-poller-client.ts:635 | Takes the oldest pending row |
| `RpcEventQueue.EventQueue.RequestLock` | src/indexer/rpc-poller-client.ts:571-584 | The lock request of the source is the specified one |
| `RpcEventQueue.EventQueue.EnterSection` | src/indexer/rpc-poller-client.ts:586-589 | A granted key was not held; a duplicate drops its pending key |
| `RpcEventQueue.EventQueue.PersistSettled` | src/indexer/rpc-poller-client.ts:647-656 | A persist moves the key from pending to persisted, a throwing one only drops it |
| `RpcEventQueue.EventQueue.ReleaseLock` | src/indexer/rpc-poller-client.ts:590-596 | The finally block is the specified release, and heldLocks stays the set of held keys |
| `RpcEventQueue.EventQueue.constructor` | src/indexer/rpc-poller-client.ts:497-520 | A fresh queue with the given submits is an initial state |
| `RpcEventQueue.EventQueue.OfferRows` | src/indexer/rpc-poller-client.ts:664-668 | A submit begins with its enqueue, and rejects on overflow: the specified step |
| `RpcEventQueue.EventQueue.FlushOn` | src/indexer/rpc-poller-client.ts:628-661 | Taking a row, asking for its lock, entering and leaving the section are the specified steps |
| `RpcEventQueue.EventQueue.SettleOn` | src/indexer/rpc-poller-client.ts:647-656 | A persist that settles or throws is the specified step |
| `RpcEventQueue.EventQueue.Advance` | src/indexer/rpc-poller-client.ts:628-681 | Any possible step of a submit in the code is the specified step and keeps the invariant |
| `SubmittedEvents.KeysTellEventsApart` | src/indexer/ledger-range-tracker.ts:663-667 | Where no contract, or no type, holds the separator, two rows suppress one another if and only if contract, ledger and type agree |
| `SubmittedEvents.MistakenExactlyWhen` | src/indexer/ledger-range-tracker.ts:663-667 | Some other event has the identity text of a row if and only if the contract or the type of the row holds a number between separators |
| `SubmittedEvents.AnotherEventIsDropped` | src/indexer/ledger-range-tracker.ts:663-667 | Two different events with one identity text: the second counts as a duplicate of the first |
| `SubmittedEvents.EnqueueTakesTheNovel` | src/indexer/rpc-poller-client.ts:603-626 | From any queue an enqueue takes the first row of each event that is not known yet, in order and as far as there is room, and overflows if and only if there is too little |
| `SubmittedEvents.DifferentEventsAllGoIn` | src/indexer/rpc-poller-client.ts:603-626 | A fresh queue takes pairwise different events all, up to its size |
| `SubmittedEvents.OnlyOfferedAreAccepted` | src/indexer/rpc-poller-client.ts:603-661 | In every run only submitted rows are accepted, and so only they are persisted |
| `SubmittedEvents.NoEventIsStoredTwice` | src/indexer/rpc-poller-client.ts:628-661 | In no reachable state has an event been persisted twice, or do two callers persist it |
| `SubmittedEvents.EveryEventIsStoredOnce` | src/indexer/rpc-poller-client.ts:664-681 | When every submit resolves, of each submitted (contract, ledger, type) exactly one row was persisted, one of those submitted |
| `SubmitOutcome.ResolvesStoredExactlyWhen` | src/indexer/rpc-poller-client.ts:628-681 | At the step that resolves a submit its rows are stored if and only if no other caller has one of them in hand |
| `SubmitOutcome.CanResolveTooSoon` | src/indexer/rpc-poller-client.ts:664-681 | From every reachable state in which another caller has one of its rows in hand, a submit can go on to resolve before that row is stored |
| `SubmitOutcome.AnotherMayKeepTheRow` | src/indexer/rpc-poller-client.ts:628-681 | Another submit that is under way can take a row just offered and hold it until the submit that offered it resolves |
| `SubmitOutcome.DrainsAndResolves` | src/indexer/rpc-poller-client.ts:628-661 | A submit under way can drain the queue and resolve without a step of the caller that holds a row |
| `SubmitOutcome.QuietPathKeepsAlone` | src/indexer/rpc-poller-client.ts:628-681 | While no other submit is under way, the rows of a submit are pending, in its own hand or stored, or it is going to reject |
| `SubmitOutcome.ResolvedMeansStoredExactlyWhen` | src/indexer/rpc-poller-client.ts:664-681 | Before it submits a caller can tell: as long as no further submit is made, resolving means stored if and only if the submit overflows, its rows are stored already, or no other submit is under way |
| `RangeLocks.OverlapMeansSharedLedger` | src/indexer/ledger-range-tracker.ts:673-675 | The overlap test holds if and only if the two ranges share a ledger |
| `RangeLocks.StepKeepsInv` | src/indexer/ledger-range-tracker.ts:739-772 | Every step of acquiring, waiting, running and releasing keeps the invariant |
| `RangeLocks.NeverStuck` | src/indexer/ledger-range-tracker.ts:749-761 | Waiters wait only on callers already inside, so some caller can always step |
| `RangeLocks.StepCostsOne` | src/indexer/ledger-range-tracker.ts:749-771 | Every step, including waking up and failing again, lowers a quadratic measure |
| `RangeLocks.RunKeepsInv` | src/indexer/ledger-range-tracker.ts:739-772 | Every state of every interleaving satisfies the invariant |
| `RangeLocks.RunsFinish` | src/indexer/ledger-range-tracker.ts:739-772 | n callers take at most n(2n + 4) steps; where none is possible all are done and no lock is left |
| `RangeLocks.SectionsAreSafe` | src/indexer/ledger-range-tracker.ts:739-772 | Active ranges are pairwise disjoint, and sections of overlapping ranges never interleave in the history of a run |
| `RangeLocks.EntersExactlyWhen` | src/indexer/ledger-range-tracker.ts:749-761 | A caller that looks enters at once if and only if nobody has the lock on one of its ledgers, and otherwise waits for exactly those who have |
| `RangeLocks.LooksAgainExactlyWhen` | src/indexer/ledger-range-tracker.ts:760-761 | A waiting caller looks again if and only if all it waits for are done |
| `RangeLocks.RangeLockTable.TryAcquire` | src/indexer/ledger-range-tracker.ts:750-758 | Answers exactly the overlapping active locks and lists the caller only when there are none |
| `RangeLocks.RangeLockTable.Remove` | src/indexer/ledger-range-tracker.ts:766-769 | Unlists exactly the caller's own entry |
| `RangeLocks.RangeLockTable.constructor` | src/indexer/ledger-range-tracker.ts:677-690 | A fresh table with the given calls is an initial state |
| `RangeLocks.RangeLockTable.Advance` | src/indexer/ledger-range-tracker.ts:739-772 | Any possible step of a call in the code is the specified step and keeps the invariant |
| `Rounding.RoundMeetsItsMode` | src/utils/rounding.ts:46-80 | For all signs, q is the result if and only if it meets the mode's defining inequality |
| `Rounding.HalfEvenIsNearest` | src/utils/rounding.ts:76-79 | Half-even is the unique integer within half a divisor, even on ties |
| `Rounding.Mirror` | src/utils/rounding.ts:56-61 | Negating the dividend mirrors floor and ceil and negates the rest; negating both operands changes nothing |
| `Rounding.RoundIsMonotone` | src/utils/rounding.ts:63-79 | Every mode is monotone in the dividend: rising for a positive divisor, falling for a negative one |
| `Rounding.RoundOfMultiple` | src/utils/rounding.ts:63-65 | A multiple of any nonzero divisor is divided exactly, in every mode |
| `Rounding.RoundGrowsSlowly` | src/utils/rounding.ts:63-79 | For every nonzero divisor, a dividend raised by less than its magnitude moves the result by at most one |
| `Rounding.HandHalfEvenAgrees` | src/utils/audit_ledger_sum_checker.ts:611-655 | The hand-written half-even division succeeds exactly on non-negative numerators and positive denominators, and there equals the shared one; the refund helper (src/utils/refund_ratio_helper.ts:157-165) is the same division |
| `BracketTax.OneMoreUnitOfGross` | src/utils/tax_deduction_estimator.ts:1207-1232 | For every valid schedule and mix of modes, one more unit of gross raises the tax by 0 or 1 |
| `BracketTax.TaxAndNetAreMonotone` | src/utils/tax_deduction_estimator.ts:1207-1250 | Tax and net are both monotone in gross |
| `BracketTax.TaxWithinGross` | src/utils/tax_deduction_estimator.ts:1234-1240 | Tax lies between 0 and gross, so the "exceeds gross" branch is unreachable |
| `BracketTax.ValidateBrackets` | src/utils/tax_deduction_estimator.ts:1173-1184 | No error if and only if every bracket is valid; otherwise the error of the first invalid one |
| `BracketTax.ValidateOrder` | src/utils/tax_deduction_estimator.ts:1186-1205 | Accepts exactly the schedules with ascending bounds and the catch-all last |
| `BracketTax.ValidExactlyWhen` | src/utils/tax_deduction_estimator.ts:1173-1205 | A schedule is valid if and only if it is not empty, each rate is between zero and its scale, scales are positive, all values are in range, and bounds rise strictly up to a last bracket that may do without |
| `BracketTax.BracketErrorSays` | src/utils/tax_deduction_estimator.ts:1040-1104 | The first thing wrong with a bracket decides its error: rate, then scale, then rate above scale, then bound |
| `BracketTax.SliceTaxesItsBand` | src/utils/tax_deduction_estimator.ts:1215-1231 | The tax of a bracket is the rounding, in its own mode or else the call's, of rate times the part of gross between its bounds over scale |
| `BracketTax.AboveTheLastBoundIsFree` | src/utils/tax_deduction_estimator.ts:1207-1232 | A schedule without a catch-all is accepted, and taxes nothing above its last bound |
| `BracketTax.TaxIsTheSumOfSlices` | src/utils/tax_deduction_estimator.ts:1220-1227 | The recursive tax is the sum of the taxes on the clamped slices |
| `BracketTax.TaxIsTheWholeSum` | src/utils/tax_deduction_estimator.ts:1207-1232 | The same for the whole schedule |
| `BracketTax.TaxBracket` | src/utils/tax_deduction_estimator.ts:1215-1231 | One turn of the loop taxes exactly the bracket's clamped slice and keeps remaining and lowerBound in step |
| `BracketTax.TaxBrackets` | src/utils/tax_deduction_estimator.ts:1207-1232 | The loop yields every slice's tax, and their sum is the closed form |
| `BracketTax.EstimateBracketTax` | src/utils/tax_deduction_estimator.ts:1127-1251 | Succeeds exactly on an amount in range and a valid schedule, names the right error otherwise; each bracket tax meets the defining inequality of its mode for its band, and the figures reconcile |
| `BracketTax.DeductionIsSound` | src/utils/tax_deduction_estimator.ts:611-664 | The flat deduction succeeds exactly on acceptable inputs; its tax is the rounding of gross times rate over scale, within gross, and passes the remainder check of lines 243-264 |
| `BracketTax.PreviewIsTruncatingDeduction` | src/utils/tax_deduction_estimator.ts:282-325 | The withholding preview is the truncating deduction at scale 10000, up to the code of the rate error |
| `BracketTax.FlatRateIsOneBracket` | src/utils/tax_deduction_estimator.ts:576-665 | The flat deduction is the bracket tax of a one-bracket schedule |
| `CsvText.ParseCsvLine` | src/utils/csv-serializer.ts:59-94 | The character loop computes the recursive field grammar |
| `CsvText.SplitCsvRows` | src/utils/csv-serializer.ts:100-131 | The character loop computes the recursive row grammar, blank rows dropped |
| `CsvText.RowRoundTrip` | src/utils/csv-serializer.ts:52-94 | Parsing a formatted row gives back its fields, for any fields and any delimiter other than a quote or line break |
| `CsvText.PrintedAsItIs` | src/utils/csv-serializer.ts:24-50 | A field is printed without quotes if and only if it holds no delimiter, quote or line break |
| `CsvText.QuotesMayStandAnywhere` | src/utils/csv-serializer.ts:59-94 | A quoted stretch may stand anywhere in a field: its quotes go, doubled ones in it become one |
| `CsvText.OpenQuoteRunsOn` | src/utils/csv-serializer.ts:59-94 | A quote that is never closed runs to the end of the line |
| `CsvText.SplitAcrossRow` | src/utils/csv-serializer.ts:105-125 | Splitting runs across a formatted row, quotes and line breaks inside fields included, without cutting it |
| `CsvText.VisibleRowIsKept` | src/utils/csv-serializer.ts:119-121 | A row with a visible character somewhere is not dropped as blank |
| `CsvText.BlockRoundTrip` | src/utils/csv-serializer.ts:100-131 | Splitting a block gives back exactly its formatted rows, for every line ending |
| `FeeCsv.ValidatedRowsBalance` | src/utils/fee-deduction-calculator.ts:998-1085 | In a validated row fee and net are non-negative and add up to gross, and fee times scale plus remainder is gross times rate |
| `FeeCsv.RefusedWhenTheFeePassesTheGross` | src/utils/fee-deduction-calculator.ts:601-609 | On otherwise acceptable inputs the record is refused if and only if gross times rate reaches (gross + 1) times scale |
| `FeeCsv.RefusalSays` | src/utils/fee-deduction-calculator.ts:562-612 | For every record, which error it is refused with, and that it is accepted otherwise |
| `FeeCsv.IntegerRoundTrip` | src/utils/csv-serializer.ts:320-337 | A printed integer reads back as itself and ends visibly |
| `FeeCsv.WrittenIntegerReads` | src/utils/csv-serializer.ts:476-509 | Digits with a minus sign or none, and white space around them, read as the integer they write |
| `FeeCsv.OnlyWrittenIntegersRead` | src/utils/csv-serializer.ts:476-509 | Nothing else reads as an integer |
| `FeeCsv.ValidateAll` | src/utils/csv-serializer.ts:277-284 | All records valid, or the error of the first invalid one |
| `FeeCsv.PrintRows` | src/utils/csv-serializer.ts:309-341 | The loop prints every row of the table in order |
| `FeeCsv.BuildFeeCsvBlock` | src/utils/csv-serializer.ts:253-350 | Succeeds exactly on valid records (and a non-empty list where one is asked for) and prints the specified block |
| `FeeCsv.BlockShowsTheRecords` | src/utils/csv-serializer.ts:285-341 | A built block splits into its headings (label first exactly when some record has one, then the six figures in order) and a line for each record whose cells, looked up by heading, read as the figure of that name, and its label |
| `FeeCsv.ParseDataRow` | src/utils/csv-serializer.ts:476-509 | One line is read by header into a draft and validated as specified |
| `FeeCsv.DraftHoldsTheCells` | src/utils/csv-serializer.ts:476-500 | For headings in any order each input is the last cell under its heading that is not empty, or the default; other columns change nothing |
| `FeeCsv.ParsedRowSays` | src/utils/csv-serializer.ts:476-509 | A row read from a line has the integers of those cells, the scale 10000 where there is none, and the label |
| `FeeCsv.ParseDataRows` | src/utils/csv-serializer.ts:475-510 | The rows in order, or the first row's error |
| `FeeCsv.CollectSays` | src/utils/csv-serializer.ts:475-510 | Either every row, in order, or the error of the first that failed |
| `FeeCsv.ParseFeeCsvBlock` | src/utils/csv-serializer.ts:454-513 | The parser computes the specified reading of a block |
| `FeeCsv.FeeBlockRoundTrip` | src/utils/csv-serializer.ts:253-350 | Parsing a built block gives back the validated rows, an empty label read as absent |
| `FeeCsv.FeeBlockRoundTripIsExact` | src/utils/csv-serializer.ts:491-493 | The round trip is exact if and only if no label is the empty string |
| `RangeFetch.ChunkLedgerRange` | src/indexer/ledger-range-tracker.ts:633-650 | Pages tile the range without gap or overlap, all full but the last; an inverted range has none; refused exactly for a page size below one |
| `RangeFetch.FilterOfStretch` | src/indexer/ledger-range-tracker.ts:652-661 | When the events of a range form a stretch, filtering is that stretch |
| `RangeFetch.RangeIsAStretch` | src/indexer/ledger-range-tracker.ts:652-661 | In a ledger-ordered log the events of a range form one stretch |
| `RangeFetch.TakenOfIs` | src/indexer/rpc-poller-client.ts:838-853 | Of any batch and any ids seen before, what is taken lies in the page, is new, and comes once each; no event of the page is missed |
| `RangeFetch.FreshIsTakenWhole` | src/indexer/rpc-poller-client.ts:838-853 | Of a batch of new events everything up to the page end is taken |
| `RangeFetch.TakeBatch` | src/indexer/rpc-poller-client.ts:838-853 | For any batch and any ids seen before, the loop takes what the filter specifies, adds exactly its ids, and notices an event past the page end |
| `RangeFetch.FetchBatch` | src/indexer/rpc-poller-client.ts:820-860 | One request extends the collected events to the next position and goes on exactly while a full batch stays inside the page |
| `RangeFetch.WalkStretch` | src/indexer/rpc-poller-client.ts:820-860 | The cursor walk collects the page's stretch of the log, cut only by the request cap |
| `RangeFetch.WalkPage` | src/indexer/rpc-poller-client.ts:817-861 | The same for a page given by ledgers |
| `RangeFetch.WalkPages` | src/indexer/rpc-poller-client.ts:817-861 | The pages in order, with one shared seen set that drops nothing |
| `RangeFetch.WalksJoin` | src/indexer/rpc-poller-client.ts:817-861 | The walks of the pages join to the range's stretch when no page is above the cap, and fall short otherwise |
| `RangeFetch.FetchIsTheFilteredLog` | src/indexer/rpc-poller-client.ts:799-885 | The result is exactly the server log filtered to the range if and only if no page holds more events than the request cap carries |
| `RangeFetch.MostOfAPage` | src/indexer/rpc-poller-client.ts:820 | At the setting of the source a page is cut after a thousand full requests |
| `RangeFetch.FetchEventRange` | src/indexer/rpc-poller-client.ts:799-885 | Accepts exactly 1 <= start <= end with a positive page size and limit, and names the first thing wrong otherwise; tiles the range, and meets the completeness condition above |
| `RangeFetch.TallyLedgers` | src/indexer/rpc-poller-client.ts:429-435 | The map has each ledger's event count, and only positive counts |
| `RangeFetch.CountEventsByLedger` | src/indexer/rpc-poller-client.ts:426-439 | Ascending ledgers, each with its exact count, all present, the counts adding up to the number of events |
| `EventTable.StoredHolds` | src/indexer/db.ts:1519-1532 | Storing keeps existing rows, adds every new id, and adds nothing else |
| `EventTable.StoredAgain` | src/indexer/db.ts:1508-1512 | Storing ids that are already there changes nothing |
| `EventTable.SkipsGrow` | src/indexer/poller.ts:867-880 | Clamping records exactly the ledgers between the pointer and the new start as skipped |
| `EventTable.IngestGoesOn` | src/indexer/poller.ts:903-909 | Taking in a stretch page by page is taking it in at once |
| `EventTable.IngestKeepsConsistent` | src/indexer/db.ts:1508-1512 | A table that holds log events under their own ids keeps doing so |
| `EventTable.IngestSettles` | src/indexer/poller.ts:903-1000 | Taking in a stretch settles an event if and only if it was settled, lies in the skipped ledgers or the stored stretch, or failed to decode in the decoded one |
| `GroupPoller.EndingInClosedForm` | src/indexer/poller.ts:903-1000 | However the RPC answers, a poll is as many full pages as are served, committed and followed by a cursor, and then the page that ends it, or the cap |
| `GroupPoller.EndingSays` | src/indexer/poller.ts:903-1000 | Pages before the end were served and committed; a poll throws only at a failing reply or commit, is cut only at the cap, and a last page puts the pointer at the head its reply reports, or at the ledger the poll started for when it reports none |
| `GroupPoller.RequestsSay` | src/indexer/poller.ts:849-904 | A poll starts at the ledger after its pointer, or at the oldest ledger the RPC keeps when it says so, and every page takes the next reply |
| `GroupPoller.PointerRisesExactlyWhen` | src/indexer/poller.ts:975-997 | The pointer rises if and only if a page was committed and, on a last page, the reported head is above it; a reply from behind may leave it or move it back |
| `GroupPoller.PollSettlesExactly` | src/indexer/poller.ts:903-1000 | A poll settles an event if and only if it was settled, or lies in the gap it recorded, in what it stored, or failed to decode |
| `GroupPoller.PollSettles` | src/indexer/poller.ts:903-1000 | After a poll from a complete pointer every event at or below the new pointer is stored, recorded as undecodable or in a recorded gap, except those past where it stopped |
| `GroupPoller.PollIsCompleteOnItsInputs` | src/indexer/poller.ts:894-1000 | For every ending (last page, lost cursor, cap, failed reply, failed commit): the pointer is complete if and only if the poll ends between two ledgers, a condition on the log, the replies and the commits |
| `GroupPoller.SteadyPollIsCompleteUnless` | src/indexer/poller.ts:894-992 | With one reported head, cursors and commits throughout, a poll is complete unless its page cap falls at or before the last event shown and inside a ledger |
| `GroupPoller.MissedIsInTheLastLedger` | src/indexer/poller.ts:982-984 | An event that a cut or failed poll leaves behind at or below its pointer lies in the ledger of that pointer |
| `GroupPoller.FinishedIsComplete` | src/indexer/poller.ts:976-984 | A finished poll whose reply had seen the ledger it reports is complete at its pointer; a cut or failed one is complete strictly below it; one that commits nothing stays complete |
| `GroupPoller.CapLosesAnEvent` | src/indexer/poller.ts:982-992 | A ledger with 101 events and a cap of one page: served and committed, the poll puts the pointer at that ledger and its last event is lost |
| `GroupPoller.MissingCursorLosesLedgers` | src/indexer/poller.ts:975-984 | A full page without a cursor counts as the last: the pointer goes to the reported head, and every event of all ledgers behind the page is lost |
| `GroupPoller.UnnamedHeadLosesAnEvent` | src/indexer/poller.ts:975-984 | A page that names no head moves the pointer to the ledger the poll started for, which the RPC need not have seen |
| `GroupPoller.ReplayChangesNoRow` | src/indexer/db.ts:1508-1512 | Polling again over ground already stored leaves the event table unchanged |
| `GroupPoller.MissedForGood` | src/indexer/poller.ts:835 | An event at or below the pointer that is not settled is never settled by a later poll |
| `GroupPoller.RunSettlesExactly` | src/indexer/poller.ts:831-1001 | After any run of polls an event is settled if and only if it was, or one of the polls settled it |
| `GroupPoller.RunAccountsForAll` | src/indexer/poller.ts:831-1001 | Over any run of polls an event at or below the pointer is settled unless some poll of the run missed it |
| `GroupPoller.CleanRunIsComplete` | src/indexer/poller.ts:831-1001 | A run in which each poll ends between two ledgers is complete at its pointer |
| `GroupPoller.SetAllSets` | src/indexer/poller.ts:990-992 | After the pointer loop the contracts of the group, and no others, stand at the new ledger |
| `GroupPoller.MaxIsLast` | src/indexer/poller.ts:976-984 | The largest ledger of a page of the log is that of its last event |
| `GroupPoller.PageAdvances` | src/indexer/poller.ts:903-1000 | One page more takes the specified tables and pointers to the specified next ones, whether it ends the poll or not |
| `GroupPoller.Poller.InsertEventBatch` | src/indexer/db.ts:1518-1536 | Rows under insert-or-ignore and the global pointer change together |
| `GroupPoller.Poller.DecodeEventsIsolated` | src/indexer/poller.ts:244-276 | Exactly the decodable events become rows, in order, and the others are recorded |
| `GroupPoller.Poller.UpdateContractPointers` | src/indexer/poller.ts:990-992 | Every contract of the group is set to the new ledger |
| `GroupPoller.Poller.FetchPageRetentionAware` | src/indexer/poller.ts:849-892 | A first request older than the RPC keeps is clamped once and the gap recorded; everything else passes through |
| `GroupPoller.Poller.StorePage` | src/indexer/poller.ts:906-992 | A committed page stores its decodable rows and moves the pointers to the specified ledger; a failed commit moves nothing |
| `GroupPoller.Poller.TakePage` | src/indexer/poller.ts:904-999 | What one reply does to the tables, the pointers and the loop is the specified page ending |
| `GroupPoller.Poller.FetchNextPage` | src/indexer/poller.ts:904 | The first page starts by ledger after clamping, later ones by cursor, and the progress made so far stays |
| `GroupPoller.Poller.PollPage` | src/indexer/poller.ts:903-1000 | One turn of the loop either ends the poll with the specified outcome and tables, or moves it to the specified next place |
| `GroupPoller.Poller.PollGroup` | src/indexer/poller.ts:831-1001 | A group with nothing new is passed over; otherwise outcome, rows, gaps, undecodable records and pointers are exactly those of the specified poll |
| `JobParticipants.RecordedAreNamed` | src/indexer/db.ts:1461-1477 | The three conditional inserts record exactly the parties the event names, none for created events or unparseable data |
| `JobParticipants.IndexedGrows` | src/indexer/db.ts:1424-1426 | Adding an event and its parties keeps the index equal to the parties of all stored events |
| `JobParticipants.BatchIsIdempotent` | src/indexer/db.ts:1508-1528 | Inserting a batch twice is inserting it once |
| `JobParticipants.InsertAllTakesNewRows` | src/indexer/db.ts:1508-1532 | Of a batch exactly those rows go in, in order, whose id column no stored row and no earlier row of the batch has |
| `JobParticipants.OwnIdsGoIn` | src/indexer/db.ts:1381-1384 | Rows with pairwise different non-empty ids, none of them stored, all go in |
| `JobParticipants.SameIdExactlyWhen` | src/indexer/db.ts:1381-1384 | Rows with ids meet exactly when the ids agree, rows without exactly when contract, ledger and type do (where no contract, or no type, holds a colon), and an id meets an event written like it |
| `JobParticipants.MistakenExactlyWhen` | src/indexer/db.ts:1381-1384 | A row without id meets a different event without id if and only if its contract or its type holds a number between colons |
| `JobParticipants.NamesExactlyWhen` | src/indexer/db.ts:1454-1477 | An event names an address as client, freelancer or arbiter if and only if it is not a created event and the trimmed field of that name is the address |
| `JobParticipants.LatestIs` | src/indexer/db.ts:1812-1815 | The row ranked first descending is the latest event of the contract, ties by insertion |
| `JobParticipants.FirstIs` | src/indexer/db.ts:1816-1819 | The row ranked first ascending is the earliest event of the contract, ties by insertion |
| `JobParticipants.PagesPartition` | src/indexer/db.ts:1762-1778 | The first n pages concatenated are the first n times limit jobs: no gap, no repeat |
| `JobParticipants.PageSays` | src/indexer/db.ts:1762-1778 | A page holds the entries from its place in the list on, as many as there are up to the limit; a page or limit below one counts as one |
| `JobParticipants.ListingIsUnique` | src/indexer/db.ts:1835 | The order by ledger and contract determines the listing completely |
| `JobParticipants.SummaryDescribes` | src/indexer/db.ts:1823-1834 | A summary from the index says what the events say: role, latest event, milestones of the first |
| `JobParticipants.IndexedRoleIsRole` | src/indexer/db.ts:1795-1800 | The role case on the index is the client-freelancer-arbiter precedence on the events |
| `JobParticipants.SummariesAreTheListing` | src/indexer/db.ts:1790-1837 | The joined, ordered summaries are the listing a scan of all events defines |
| `JobParticipants.EventStore.InsertRow` | src/indexer/db.ts:1519-1532 | Inserts exactly when the key is new and keeps keys distinct and the index exact |
| `JobParticipants.EventStore.InsertRows` | src/indexer/db.ts:1519-1532 | The loop stores the specified rows and counts the new ones |
| `JobParticipants.EventStore.InsertBatch` | src/indexer/db.ts:1519-1532 | The loop of both batch inserts adds exactly the rows whose ids are new, all of them when they have new ids of their own |
| `JobParticipants.EventStore.InsertEvent` | src/indexer/db.ts:1399-1430 | The row goes in if and only if no stored row has its id, or without one the text of its contract, ledger and type; the index stays exact |
| `JobParticipants.EventStore.InsertEventBatch` | src/indexer/db.ts:1504-1536 | The rows whose ids are new go in, all of them when they have new ids of their own; the index stays exact and the global pointer is overwritten |
| `JobParticipants.EventStore.InsertHistoricalEventBatch` | src/indexer/db.ts:2301-2357 | Refused exactly for a bad range or an event outside it, changing nothing; otherwise the rows whose ids are new go in, with exact index and inserted count, and the pointer only rises and only on request |
| `JobParticipants.EventStore.WalletContracts` | src/indexer/db.ts:1780-1786 | The indexed contracts of an address are exactly those whose events name it |
| `JobParticipants.EventStore.ListContracts` | src/indexer/db.ts:1832-1835 | Each contract once, summarised, in order |
| `JobParticipants.EventStore.GetJobsByWallet` | src/indexer/db.ts:1757-1838 | The page asked for of the listing that a naive scan of the events defines, with its total |
| `RouteLimiter.SweepsChangeNothing` | src/middleware/job-contract-rate-limit.ts:24-32 | Two bucket maps that agree on live buckets decide alike, with or without sweeps |
| `RouteLimiter.SweepIsInvisible` | src/middleware/job-contract-rate-limit.ts:24-32 | Interleaving sweeps at any points changes no decision |
| `RouteLimiter.RunStaysInBudget` | src/middleware/job-contract-rate-limit.ts:56-75 | Requests accepted in any half-open interval of one window stay within a budget that depends on the bucket |
| `RouteLimiter.WindowBound` | src/middleware/job-contract-rate-limit.ts:58-73 | Any half-open interval of one window length accepts at most 2 floor(max) - 1 requests of a key; floor(max) when the window is at most one, none when max is below one |
| `RouteLimiter.BoundIsReached` | src/middleware/job-contract-rate-limit.ts:58-73 | For every setting some requests of a run from the start reach exactly that bound |
| `RouteLimiter.MaxIsKeptExactlyWhen` | src/middleware/job-contract-rate-limit.ts:58-73 | No window passes max if and only if max is below two or the window is at most one |
| `RouteLimiter.Limiter.Handle` | src/middleware/job-contract-rate-limit.ts:56-75 | A new or expired bucket restarts, the count rises by one, and the decision and remaining count follow from it |
| `RouteLimiter.Limiter.Sweep` | src/middleware/job-contract-rate-limit.ts:24-27 | Exactly the expired buckets go |
| `WebhookDelivery.RangesJoin` | src/indexer/webhook-delivery.ts:652-658 | The events of adjoining ledger ranges join in order |
| `WebhookDelivery.QueryKeepsPairs` | src/indexer/webhook-delivery.ts:641-648 | Reading only subscribed contracts loses no pair |
| `WebhookDelivery.PairsAreWanted` | src/indexer/webhook-delivery.ts:660-664 | The pairs are exactly the event and subscription of the same contract whose types match |
| `WebhookDelivery.MatchesExactlyWhen` | src/indexer/webhook-delivery.ts:595-606 | A subscription matches all types, the entries of its list (or all, if * is one), the parts of its JSON string, or its plain name |
| `WebhookDelivery.PairsOfRangeAre` | src/indexer/webhook-delivery.ts:641-664 | A delivery is about exactly the pairs of an event of the ledger range and a subscription of its contract that wants its type |
| `WebhookDelivery.PairsInOrder` | src/indexer/webhook-delivery.ts:647 | Pairs come in (ledger, event, subscription) order without repeats |
| `WebhookDelivery.PageJoins` | src/indexer/webhook-delivery.ts:652-664 | What was delivered plus one more page is the range up to that page's end |
| `WebhookDelivery.OneResultEach` | src/indexer/webhook-delivery.ts:668-686 | Each pair has exactly one result, its own, whatever the others did |
| `WebhookDelivery.ResultSays` | src/indexer/webhook-delivery.ts:535-583 | An accepted attempt succeeds with its number, three refused ones fail with three attempts, and a throwing one fails with none |
| `WebhookDelivery.OutboxHoldsTheResults` | src/indexer/webhook-delivery.ts:346-390 | After a delivery every pair has its row, delivered or failed after so many attempts, due again after a minute, doubled for each attempt up to an hour; all other rows stay |
| `WebhookDelivery.OrderedPairsHaveDistinctKeys` | src/indexer/webhook-delivery.ts:319 | The pairs of a range have distinct rows |
| `WebhookDelivery.RetryDelayIsWait` | src/indexer/webhook-delivery.ts:339-344 | The delay is one minute after the first attempt, then 2, 4, 8, 16, 32 minutes, then an hour |
| `WebhookDelivery.DisabledAfterAStreak` | src/indexer/db.ts:2099-2152 | The failure counter is the current streak of failures, those before included, and the deliveries disable a subscription if and only if one of them is a failure that brings the streak to the threshold |
| `WebhookDelivery.HealthFollowsTheResults` | src/indexer/webhook-delivery.ts:688-728 | After a delivery the record of each subscription is what its own results, in order, make of its record before |
| `WebhookDelivery.DisabledExactlyWhen` | src/indexer/webhook-delivery.ts:688-728 | A delivery leaves a subscription disabled if and only if it was, or the streak of its own results reached the threshold |
| `WebhookDelivery.GroupByContract` | src/indexer/webhook-delivery.ts:628-636 | The map holds for each contract exactly its subscriptions in order |
| `WebhookDelivery.Dispatcher.DeliverEventToSubscriber` | src/indexer/webhook-delivery.ts:535-583 | Stops at the first attempt that is not refused, after at most three; throws exactly when that attempt throws |
| `WebhookDelivery.Dispatcher.DeliverPair` | src/indexer/webhook-delivery.ts:668-728 | A throwing subscriber is recorded as a failed result with no attempts; outbox and subscription follow the result |
| `WebhookDelivery.Dispatcher.DeliverEvent` | src/indexer/webhook-delivery.ts:660-664 | The inner loop delivers the event's matching subscriptions in order |
| `WebhookDelivery.Dispatcher.DeliverPage` | src/indexer/webhook-delivery.ts:660-730 | The events of a page in order |
| `WebhookDelivery.Dispatcher.DeliverNextPage` | src/indexer/webhook-delivery.ts:657-730 | One page more is the unpaged range up to its end |
| `WebhookDelivery.Dispatcher.DeliverRange` | src/indexer/webhook-delivery.ts:624-733 | For every positive page size, results, outbox and subscriptions are those of the unpaged list of pairs |
| `RetrySweep.Sweeper.RetryRow` | src/indexer/webhook-delivery.ts:475-530 | A failed row becomes dead exactly when its event or subscription is gone, its attempts are used up or it is too old, and otherwise takes the outcome of its next attempt |
| `RetrySweep.FateSays` | src/indexer/webhook-delivery.ts:475-530 | A selected row is dead when its event or subscription is gone, its attempts are used up or it is too old; else it is delivered, failed with the next wait, or left by a throw |
| `RetrySweep.Sweeper.SweepRow` | src/indexer/webhook-delivery.ts:475-530 | One turn of the loop gives one more row its fate and counts a delivery |
| `RetrySweep.Sweeper.RetryFailedDeliveries` | src/indexer/webhook-delivery.ts:431-533 | At most 100 selected rows meet their fate in order up to one that throws, all other rows stay, and the count is the number of newly delivered rows; a sweep that is neither cut nor thrown out leaves no due row unmet |
| `RetrySweep.SweepsGiveRowRuns` | src/indexer/webhook-delivery.ts:431-533 | A run of sweeps over the outbox is, row by row, a run of that row |
| `RetrySweep.SweepsOfARow` | src/indexer/webhook-delivery.ts:498-514 | Over any run of sweeps attempt numbers rise by exactly one and stop at the maximum, each touch lowers a measure, and delivered and dead rows never change |
| `RetrySweep.BackoffDoublesUpToAnHour` | src/indexer/webhook-delivery.ts:339-344 | The delay starts at a minute, doubles with each attempt and stays at an hour |
| `DeliveryQueue.StepKeepsInv` | src/indexer/poller.ts:660-678 | Queueing, starting and settling runs keeps them chained and in order |
| `DeliveryQueue.OneAtATime` | src/indexer/poller.ts:664-677 | At most one run is under way in any reachable state |
| `DeliveryQueue.StartsFollowTheQueue` | src/indexer/poller.ts:664-677 | Runs start exactly in the order in which they were queued |
| `DeliveryQueue.NeverStalls` | src/indexer/poller.ts:666-675 | While a run is unsettled some run can start or settle, rejected predecessors included |
| `DeliveryQueue.Deliveries.constructor` | src/indexer/poller.ts:648 | An empty queue |
| `DeliveryQueue.Deliveries.EnqueueWebhookDelivery` | src/indexer/poller.ts:660-678 | The new run follows the tail and becomes it |
| `DeliveryQueue.Deliveries.Begin` | src/indexer/poller.ts:664-665 | A run starts once its predecessor has settled |
| `DeliveryQueue.Deliveries.Finish` | src/indexer/poller.ts:666-675 | A run settles either way, which lets the next one start |
| `ShareSplits.RemainderIsSmall` | src/utils/partial_payment_allocator.ts:157-168 | The undistributed remainder has the sign of the total and is smaller in magnitude than the number of shares |
| `ShareSplits.SharesAreTruncations` | src/utils/partial_payment_allocator.ts:160-166 | Each share is the truncated proportional share, also of a negative total |
| `ShareSplits.SharesAreFloors` | src/utils/fee-deduction-calculator.ts:664-670 | For a non-negative total each share is the floor |
| `ShareSplits.AllocatePartialPayment` | src/utils/partial_payment_allocator.ts:128-171 | Succeeds exactly on acceptable inputs; truncated shares plus a small remainder are the total, negative totals included |
| `ShareSplits.CalculateFeeShares` | src/utils/fee-deduction-calculator.ts:627-680 | The same for fees, with floor shares and a remainder below the number of shares |
| `ShareSplits.CalculateFeeShareDeductions` | src/utils/fee-deduction-calculator.ts:686-745 | Total fee is the sum of the floor shares; it never exceeds gross, so that branch is unreachable, and net is below the number of shares |
| `ShareSplits.SplitByWeights` | src/utils/financial_report_math.ts:146-202 | Succeeds exactly on acceptable inputs, and then with the specified split |
| `ShareSplits.HandOutDust` | src/utils/financial_report_math.ts:186-191 | The circular loop never wraps: it raises exactly the leading parts by one |
| `ShareSplits.SplitConserves` | src/utils/financial_report_math.ts:165-191 | The parts of a split add up to the amount; each is its floor share, plus one in the leading dust positions, of which there are fewer than parts |
| `ShareSplits.ZeroWeightGetsDustByPosition` | src/utils/financial_report_math.ts:186-191 | A part of weight zero gets one unit if and only if it stands among the dust positions, whose number follows from the amount and the weights |
| `ShareSplits.ZeroWeightTakesTheUnit` | src/utils/financial_report_math.ts:186-191 | One unit split by the weights 0, 1 and 1 goes to the weight 0 |
| `ShareSplits.DivideWithRounding` | src/utils/audit_ledger_sum_checker.ts:666-708 | As many parts as the divisor, adding up to the amount, non-increasing and at most one apart |
| `ShareSplits.BasisPointFee` | src/utils/financial_report_math.ts:113-139 | Fee and net add up to the amount, the fee is the half-even rounding, within the amount, and monotone in it |
| `ShareSplits.AllocatesExactlyWhen` | src/utils/fee-deduction-calculator.ts:213-246 | With the dust on the last share the amounts add up to the base if and only if the truncated ones do not pass it, and then each is between zero and the base |
| `ShareSplits.AllocateByPercentage` | src/utils/fee-deduction-calculator.ts:49-246 | Succeeds if and only if the base, the recipients and the percentages are valid, the percentages add up to 100 within the tolerance, and the rounded shares do not pass the base |
| `ShareSplits.WholePercentagesFit` | src/utils/fee-deduction-calculator.ts:217-232 | Basis points that add up to at most 10000 always fit |
| `ShareSplits.SixSixthsPassTheBase` | src/utils/fee-deduction-calculator.ts:219-233 | Six shares of 16.66667 percent pass the percentage check and all others, but rounded to 1667 basis points they allocate 10002 of a base of 10000, so the allocation fails |
| `ShareSplits.SumLedgerAmounts` | src/utils/audit_ledger_sum_checker.ts:492-508 | Succeeds if and only if every amount and the whole sum are in range, and gives that sum |
| `ShareSplits.AssertLedgerSplitSum` | src/utils/audit_ledger_sum_checker.ts:534-581 | The total and the match flag; a mismatch is an error if and only if asked for |
| `FixedDecimals.PrintThenParse` | src/utils/db-precision.ts:34-83 | Parsing a printed value is the identity for every signed integer and every scale |
| `FixedDecimals.SignedBelowZero` | src/utils/db-precision.ts:53-58 | A printed value has a minus sign in front if and only if it is below zero |
| `FixedDecimals.FirstDigitDecides` | src/utils/stablecoin_cents_multiplier.ts:676-679 | The first discarded digit alone decides whether the discarded part reaches one half |
| `FixedDecimals.DiscardedDecide` | src/utils/stablecoin_cents_multiplier.ts:675-690 | The digit tests round up exactly when ceil or half-up of the discarded fraction does |
| `FixedDecimals.ToCentsIsExact` | src/utils/stablecoin_cents_multiplier.ts:672-699 | The result is exactly the floor, ceil or half-up rounding of the written decimal, and fails only out of range |
| `FixedDecimals.ExponentIsExact` | src/utils/stablecoin_cents_multiplier.ts:626-634 | Moving the point multiplies the written value by the power of ten, exactly |
| `FixedDecimals.CentsRoundTrip` | src/utils/stablecoin_cents_multiplier.ts:707-732 | Reading back a written amount gives the amount, for every in-range amount, precision and rounding |
| `FixedDecimals.FromCentsSays` | src/utils/stablecoin_cents_multiplier.ts:707-732 | An amount is written the shortest way: no zero in front of another digit, none at the end of the fraction, no bare point, and exactly its value |
| `CentsText.ReadsExactlyDecimals` | src/utils/stablecoin_cents_multiplier.ts:591-610 | A text is accepted as digits if and only if it is an optional plus sign and digits with at most one point and at least one digit |
| `CentsText.DecimalReads` | src/utils/stablecoin_cents_multiplier.ts:604-610 | An accepted text is read as the decimal it writes |
| `CentsText.ExpandedIsReadExactlyWhen` | src/utils/stablecoin_cents_multiplier.ts:589-635 | After its exponent is expanded a text is accepted if and only if parseInt finds an exponent and the moved mantissa is digits, with at most one point left |
| `CentsText.RefusedExactlyWhen` | src/utils/stablecoin_cents_multiplier.ts:652-670 | The conversion refuses exactly the texts that are not read: no other amount is invalid |
| `CentsText.WrittenIsConverted` | src/utils/stablecoin_cents_multiplier.ts:652-699 | A decimal without an exponent, signed or not, is converted to the exact rounding of its value, or overflows |
| `CentsText.ScientificIsConverted` | src/utils/stablecoin_cents_multiplier.ts:615-699 | A decimal with whatever exponent parseInt reads is converted to the exact rounding of its value, or overflows |
| `CentsText.SignedScientificIsConverted` | src/utils/stablecoin_cents_multiplier.ts:615-699 | The same behind a plus sign, which is refused if and only if the point moves in front of the sign |
| `CentsText.ScientificTextIsConverted` | src/utils/stablecoin_cents_multiplier.ts:615-699 | For all digits, both letters and every written exponent, signed or not, the amount is the exact rounding or an overflow |
| `CentsText.ParseIntSays` | src/utils/stablecoin_cents_multiplier.ts:619 | White space, a sign or none, and digits are the integer they write, whatever follows |
| `CentsText.OnlyIntegersParse` | src/utils/stablecoin_cents_multiplier.ts:619-622 | parseInt finds a number in no other text |
| `CentsText.JunkAfterTheExponentIsRead` | src/utils/stablecoin_cents_multiplier.ts:618-619 | 1e2x is read as 100 |
| `CentsText.MissingMantissaIsRead` | src/utils/stablecoin_cents_multiplier.ts:618-634 | e5 is among the texts that are read |
| `CentsText.SecondPointIsRead` | src/utils/stablecoin_cents_multiplier.ts:624 | 1.2.3e9 is among them: only the first point is taken out |
| `NodeFailover.FailoversAreCounted` | src/indexer/failover-recovery.ts:440-465 | After any calls the counter is the number of failovers made, and the last of them names the active node and the time |
| `NodeFailover.SwitchesChangeTheNode` | src/indexer/failover-recovery.ts:536-538 | Where no failover goes to the active node, two failovers in a row go to different nodes: the counter counts changes |
| `NodeFailover.NodeFollowsItsCalls` | src/indexer/failover-recovery.ts:191-199 | After any calls a node is tracked if and only if one was made for it, and its row is what its own calls make of a fresh row |
| `NodeFailover.OneAuditRowForEachFailure` | src/indexer/failover-recovery.ts:322-326 | After any calls there is one audit row for each failure |
| `NodeFailover.AuditFollowsTheFailures` | src/indexer/failover-recovery.ts:267-270 | The audit log never disagrees with the health records: row k has the node, the failure count and the retry time that failure k left in the node row |
| `NodeFailover.RunStaysInBounds` | src/indexer/failover-recovery.ts:297-301 | At any settings the backoff stays within its bounds, but for a failure with multiplier zero, and the success counter is the current success streak |
| `NodeFailover.CallSays` | src/indexer/failover-recovery.ts:287-399 | What a failure or success leaves in every column of the row of its node |
| `NodeFailover.FailuresDoubleTheBackoff` | src/indexer/failover-recovery.ts:297-301 | Failures in a row double the backoff of a fresh node from one second until it meets five minutes, at the ninth |
| `NodeFailover.HealthOfARun` | src/indexer/failover-recovery.ts:302-376 | Health after any run, in terms of its last call, failure count and success streak |
| `NodeFailover.HealthOnRecord` | src/indexer/failover-recovery.ts:302-376 | The health on record for a node after any calls for all nodes, in terms of the calls for that node |
| `NodeFailover.StreaksDecide` | src/indexer/failover-recovery.ts:278-376 | As many failures in a row as the threshold end unhealthy, as many successes in a row as theirs end healthy |
| `NodeFailover.NineSuccessesReset` | src/indexer/failover-recovery.ts:371-374 | Nine successes in a row bring the backoff to its floor |
| `NodeFailover.SuccessCanUnsettle` | src/indexer/failover-recovery.ts:369-376 | A success turns a healthy node unhealthy if and only if failures remain and its streak is short of the threshold |
| `NodeFailover.SuccessUnsettlesAHealthyNode` | src/indexer/failover-recovery.ts:375-376 | Two failures and a success turn a healthy node unhealthy |
| `NodeFailover.NodeStore.EnsureNodeRow` | src/indexer/failover-recovery.ts:191-199 | Adds a fresh row for an unknown node and changes nothing for a known one |
| `NodeFailover.NodeStore.RecordNodeFailure` | src/indexer/failover-recovery.ts:287-331 | The tables stay those of the calls made, with one failure more |
| `NodeFailover.NodeStore.RecordNodeSuccess` | src/indexer/failover-recovery.ts:361-399 | The tables stay those of the calls made, with one success more |
| `NodeFailover.NodeStore.FailoverToNode` | src/indexer/failover-recovery.ts:444-468 | The tables stay those of the calls made; the counter answered is the number of failovers among them |
| `NodeFailover.NodeStore.SelectHealthiestNode` | src/indexer/failover-recovery.ts:494-514 | The first node to which no other is preferred, healthy before unhealthy, then fewer failures, then the later success; none exactly for an empty list |
| `NodeFailover.NodeStore.CreateFailoverServer` | src/indexer/failover-recovery.ts:521-541 | The best node becomes active, with a failover if and only if another one was |

## Left out

- Express routes, authentication, schemas, configuration, logging, migrations and shutdown: plumbing.
- The SQL engine: tables are maps, sets or sequences and a transaction is one step. Constraint errors are not modelled, nor is a failing write of a delivery outcome or of an undecodable record, which the source logs and ignores.
- Contract calls, XDR decoding, fetch and clocks: decoding is a partial function, endpoints and times are parameters.
- String order: JavaScript compares UTF-16 units, the model compares characters. Only the sortedness of the keys matters.
- The queue mutex and the range mutex: their sections run without an await inside and are one step each.
- Test hooks and `reset...ForTests` helpers, and `resetJobStateCache`, which rewinds generations.
- RpcEventQueue.EventQueue.Advance: of the counts that `submit` answers only those of its enqueue are modelled.
- Settings read from the environment stand at their defaults or are arguments.
- NodeCache expiry: an eviction that may happen at any step.
- A throwing insert inside `acquireEventLocksInOrder`: the insert is one step and the locks unwind either way.
- The factory-child branch of `pollEvents` (src/indexer/poller.ts:915-969), whose pointer may move before its rows commit.
- GroupPoller.Poller.PollGroup: a ledger of zero does not occur, a crash between two contract pointers is not modelled, and the global pointer, which every group overwrites, is only described for the group polled.
- GroupPoller.RunAccountsForAll: the polls of a run are of one group; how contracts are grouped by pointer, and what a change of the group does, is not modelled.
- SubmitOutcome.ResolvedMeansStoredExactlyWhen: over the runs in which no further submit is made before this one resolves; a later submit can take rows over like one under way, which SubmitOutcome.ResolvesStoredExactlyWhen covers.
- RangeFetch.FetchEventRange: the server log does not change during a fetch, event ids are present, and the default range and page settings are arguments.
- RangeLocks.SectionsAreSafe: the section is one opaque body; the steps of `processRange` and `persistEventsIdempotent` inside it are not modelled.
- The cache and request sharing of `getJobsByWallet` (its key is lower-cased and its invalidation is partial), and fractional page and limit arguments.
- WebhookDelivery.Dispatcher.DeliverRange: the event table and the subscriptions are fixed during a delivery, the sweep it starts with is RetrySweep, and a page size below one, with which the source would not end, is excluded.
- RetrySweep.Sweeper.RetryFailedDeliveries: no delivery changes the outbox while a sweep runs. A repeated delivery of a range outside a sweep does reset its rows.
- BracketTax.EstimateBracketTax: amounts are integers, every bracket carries its scale, and rounding modes are valid; reading them from strings and numbers, and the rate limiter, are not modelled.
- FeeCsv.FeeBlockRoundTrip: default columns and headers, no extra record keys, a one-character delimiter. Numbers are read as integers written in decimal digits.
- ShareSplits.AllocatePartialPayment: shares are the scaled integers that `Math.round(s * SHARE_SCALE)` yields.
- ShareSplits.AllocateByPercentage: percentages are real numbers; the rounding of their floating-point sum and product is not modelled.
- CentsText.RefusedExactlyWhen: amounts are texts and precisions are natural numbers. A number argument, a precision that is no natural number, an exponent beyond the range of a JavaScript number and the length limit of strings are not modelled.
- Rounding.HandHalfEvenAgrees: the range check that `applyRefundRatio` makes on the refund is not part of it.
- FixedDecimals.PrintThenParse: the fixed scale form; trimming of trailing zeros is not modelled for columns.
- `convertMinorDecimals`, `verifyFeeAllocation`, `dollarsToCents`, `centsToDollars`, ticker resolution, allocation report CSVs: easy members or copies of modelled code.
- NodeFailover.RunStaysInBounds: thresholds and multipliers are natural numbers; `recordNodeHealth`, which overwrites a row, and a failing transaction, which the source logs, are not modelled.
- `insertEventsWithDedup`, the failover import path, `IndexerMetricsEventQueue` and the repeated retry and throttle helpers.
