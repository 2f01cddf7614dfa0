# Verified model of the EventShock control plane

EventShock compares a baseline and an intervention on the same random seeds. Around that simulation sits a control plane:
a worker that survives crashes, a coordinator that merges concurrent requests, a rate limiter, an audit log, a store of
questions and answers, a scheduler for model calls, and a handful of compact algorithms. This project models that control
plane in Dafny and proves what it is for.

| file | component | form |
|---|---|---|
| `StoppingRule.dfy` | the stopping rule, evaluated pair by pair | a method with loops against a fold |
| `ExperimentRecord.dfy` | one experiment's row, checkpoint and pair rows | a class whose methods are transactions |
| `ExperimentRunner.dfy` | the worker as a step machine with crashes, restarts, cancellation and failures | states, steps, invariants, theorems over all schedules |
| `ExperimentService.dfy` | the worker body | methods that change the row, with interference between statements |
| `SingleFlight.dfy` | the asynchronous coordinator | interleaved critical sections, and a class with the same effect |
| `RateLimiter.dfy`, `RateLimitRules.dfy` | the sliding-window limiter and the rules of each request | a class with dictionary and table, refined against the full history |
| `RetryPromise.dfy` | whether the announced waits can be relied on, bucket by bucket | theorems over all runs of the service, and runs that break the promise |
| `AuditChain.dfy` | the hash-chained audit log and its verifier | a class, and theorems over all runs |
| `InterpretationStore.dfy` | stored questions and answers, deletion markers, retention | a class, and theorems over all runs |
| `InterpretationDeletion.dfy` | answers and deletions of conversations running through the coordinator | the coordinator and the store as one system, theorems over all interleavings |
| `CognitionScheduler.dfy` | the closed loop of model calls and pilot reruns | nested loops against a recursive specification |
| `SignTest.dfy` | the exact two-sided sign test | functions, against counting sign vectors |
| `SourceBatching.dfy`, `ClaimQuota.dfy` | batches of sources and the share of claims per batch | methods with loops |
| `ScenarioDiff.dfy` | differences between configurations | a recursive method against structural recursion |
| `FirewallMigration.dfy` | replacing one firewall rule with rollback | a class whose commands may fail in any way |
| `SentenceRecovery.dfy` | sentences from document lines, near duplicates, fallback claims | methods with loops at the level of words |
| `Json.dfy`, `Text.dfy` | shared values and string facts | |

What lies outside is a parameter or a nondeterministic choice: the simulation is a deterministic function of its arguments,
model answers, pilot failures, user requests and command results are arbitrary, clocks are given. SHA-256 is taken to be
free of collisions, locks of the event loop are fair, and a stretch of a coroutine without an await is one step. Times and
window lengths are reals or integers.

Where the code differs from what its comments or its purpose suggest, the model follows the code and says when it matters:

- The limiter's eviction draws keys from a live iterator over the dictionary it pops from, so a second eviction in one call
  raises after the request has been charged (`BoundRaisesExactly`, `TwoNewKeysAtCapacityFail`); at the default size, five
  thousand plain writes of strangers lead there (`OverflowIsReached`).
- `Retry-After` is too short when requests with different limits share a bucket, as guided-workflow writes and other writes
  do; no other bucket has this fault (`RetryAfterExact`, `PromiseKeptExceptForWrites`).
- The audit event of a completed or cancelled run is a second transaction after the final status, inside the same guard. When
  it cannot be appended, the row ends as failed, with its result and without its checkpoint (`StepExtends`,
  `FinishedUnlessAuditFails`, `CompletionCanBeLost`).
- A chain from before accounts existed that one account claims and its session continues, before or after the claim, no
  longer verifies for some account (`EveryRunVerifies`, `ClaimVerifiesExactlyUnmixed`, `ClaimingPartOfAChainBreaksIt`).
- A deletion that finds nothing leaves no marker, so an answer can follow it, and a retried deletion that is answered from
  the cache then reports success and leaves that answer stored (`ReportedDeletionWasCarriedOut`,
  `RepeatedDeletionLeavesAnswer`).
- A difference list does not tell a missing key from a null (`PatchRebuildsExactly`, `MissingAndNullAreConfused`).

## Model

| member | source | states |
|---|---|---|
| ExperimentRunner.ReachableInv | backend/app/service.py:1871-2466 | In every state that any schedule of starts, cancellations, worker steps, failures, crashes and restarts reaches, the durable row, its checkpoint and the in-memory lists of every worker agree; failures include those between the final write and its audit event, and worker deaths without any write |
| ExperimentRunner.CrashResumeEquivalence | backend/app/service.py:1888-2351 | Whatever the schedule of crashes, restarts and failures between any two durable writes, the lists, the decision, the cognition and the stored pairs that reach aggregation, and every result that is ever stored, equal those of one uninterrupted run under the same frozen cognition; a completed or invalidated experiment has a result, and one with a result is completed, invalidated or failed |
| ExperimentRunner.EveryStoredRunIsOfItsArm | backend/app/service.py:2127-2276 | In every state of every schedule pair i of a result, and of the counted pairs of a checkpoint, was simulated on the seed root plus 1009 i, the baseline with the baseline value and the intervention with the intervention value, under the one event pack and the frozen cognition recorded with them; lists, seeds and stored pairs of a result agree pair by pair |
| ExperimentRunner.DurableCheckpointInvariant | backend/app/service.py:2233-2266 | Between any two steps the stored rows are numbered 0..m-1 with their seeds, the metadata counts n with n <= m <= n+1, column and blob agree, and every counted row was run under the one frozen signal sequence of the metadata |
| ExperimentRunner.OneLiveWorker | backend/app/database.py:1172-1200 | The status compare-and-set and the single executor thread leave at most one live worker, and no worker behind the head has started |
| ExperimentRunner.FrozenCognition | backend/app/service.py:2127-2351 | Once a pair is counted, every later state of every schedule still counts it under the same event pack and cognition, in the checkpoint or in the result, unless a cancellation has discarded the run |
| ExperimentRunner.StepExtends | backend/app/service.py:1888-2466 | One step never takes back a counted pair or changes its cognition unless a cancellation discards it; a row leaves a final status exactly when the audit event of that status cannot be appended; only completion writes a result |
| ExperimentRunner.ResultMeansCompletion | backend/app/service.py:2330-2339 | In every schedule a result is stored exactly when the completing write has happened |
| ExperimentRunner.ResultIsPermanent | backend/app/service.py:2330-2466 | A stored result is the same in every later state of every schedule |
| ExperimentRunner.FinishedUnlessAuditFails | backend/app/service.py:2330-2466 | A row in a final status is in one in every later state exactly when no later step fails in the audit of that status; if one does, the row is failed for good |
| ExperimentRunner.CompletionCanBeLost | backend/app/service.py:2330-2466 | From every state in which a worker completes, a failing audit event leaves a failed row that holds the result of the uninterrupted run and no checkpoint |
| ExperimentRunner.CheckpointRestores | backend/app/service.py:2543-2608 | A checkpoint that a worker can have left behind is never refused while the event pack is unchanged, and restores as many pairs as the column counts |
| ExperimentRunner.RetryCompletes | backend/app/service.py:1577-1621 | From every retryable state that a schedule can reach there is a continuation without further faults that completes the experiment |
| ExperimentRunner.RestartMakesRetryable | backend/app/database.py:365-374 | Whatever happened to its worker, an experiment in an active status is retryable after a restart, with its checkpoint as it was |
| ExperimentRunner.FailuresKeepThePairs | backend/app/service.py:2353-2466 | A failure before the final write changes nothing but the status, so that a retry finds every stored pair |
| ExperimentRunner.NoPairAfterCancellation | backend/app/service.py:2118-2140 | Once a cancellation is recorded and no pair is being simulated, no schedule starts another pair before the experiment is claimed anew |
| ExperimentRunner.CancellationEndsTheLoop | backend/app/service.py:2131-2140 | At the head of the loop a recorded cancellation ends the row as cancelled, with the count of the pairs that were run and without checkpoint, rows or result |
| ExperimentRunner.StoppedRunsComplete | backend/app/service.py:2127-2339 | A run that its rule has stopped is completed, also when a cancellation has been recorded meanwhile |
| ExperimentRunner.CheckpointIsResumed | backend/app/service.py:1888-2126 | A checkpoint of the same event pack is resumed under its cognition or ends the worker; a worker starts afresh, with the cognition it prepares, only without one |
| ExperimentRunner.NothingElseIsRecorded | backend/app/service.py:1871-2339 | In every state of every schedule, cognition and event pack of a checkpoint or a result are ones prepared and begun with in that schedule, or those of the checkpoint it started from |
| ExperimentRunner.ChangedPackIsRefused | backend/app/service.py:1978-1981 | Counted pairs with a checkpoint of another event pack end the worker for good and are kept |
| ExperimentRunner.LoopCompletes | backend/app/service.py:2127-2276 | From the head of the pair loop, simulating, saving and counting pair after pair ends in a completed experiment |
| ExperimentRunner.ContinueFoldsTheRule | backend/app/service.py:2127-2276 | The loop folds the stopping rule over its own lists and stops, triggered, at the first prefix where a terminal condition holds |
| ExperimentRunner.UninterruptedIsStoppedByRule | backend/app/service.py:2127-2276 | A run ends between the minimum and the seed count, at the least terminal prefix, with the sample limit outranking the target, true first-satisfied pairs and a decision that names its rule and rests on the differences of its pairs |
| ExperimentRunner.CompletedExperimentsWereStopped | backend/app/service.py:2277-2466 | Every result, of a resumed run or not, was stopped by its rule in this sense, with one seed and one stored pair for each counted pair |
| ExperimentRunner.StoredDecisionsFoldTheRule | backend/app/service.py:2225-2266 | Every decision that is ever stored, in a checkpoint between any two steps or in a result, is the fold of the rule over exactly the counted pairs, after no terminal prefix, with true first-satisfied pairs, and rests on the differences of those pairs |
| ExperimentRunner.FirstPairsNeverChange | backend/app/service.py:4026-4042 | A first-satisfied pair, once recorded, is the same in every later state of every schedule, across all resumes and into the result, unless a cancellation discards the run |
| ExperimentRunner.SaveKeepsInv | backend/app/service.py:2233-2242 | Writing the row of the next pair keeps the checkpoint sound although the row is not counted yet |
| ExperimentRunner.CommitKeepsInv | backend/app/service.py:2252-2266 | Counting the pair that was just written, with the new decision, gives a sound checkpoint again |
| ExperimentRunner.LegacyRestored | backend/app/service.py:2543-2608 | Resuming a checkpoint that embedded its runs yields the lists of the uninterrupted run and the rows to migrate |
| ExperimentRunner.MetadataRestored | backend/app/service.py:2543-2608 | Resuming from metadata and pair rows yields the lists of the uninterrupted run |
| ExperimentRecord.CompactAfterStorage | backend/app/service.py:3925-3948 | Compacting a run before or after it was stored and reloaded gives the same statistics |
| ExperimentRecord.CompactKeeps | backend/app/service.py:3925-3948 | Memory drops exactly the two bulky diagnostics of a run, and storage changes its traces alone |
| ExperimentRecord.StoredTraces | backend/app/service.py:3936-3948 | A stored run keeps at most eighty traces, under distinct identifiers: none but those of its first forty and the important ones, every identifier of the former, every one of the latter unless eighty are kept, and of those with one identifier the last |
| ExperimentRecord.AcceptedExactlyWhenVerified | backend/app/service.py:2543-2608 | A checkpoint is accepted exactly when it is of this request, event pack and seed list and both runs of every counted pair carry the seed of the pair; it then brings its own cognition and decision and those runs in order |
| ExperimentRecord.UpsertIntoNumbered | backend/app/database.py:1398-1411 | Writing pair k into rows numbered without a gap replaces row k or appends it |
| ExperimentRecord.ExperimentTable.ClaimExperimentForQueue | backend/app/database.py:1172-1200 | Claims exactly a ready or retryable row; a ready one is reset, a retryable one keeps its checkpoint |
| ExperimentRecord.ExperimentTable.SaveExperimentCheckpointPair | backend/app/database.py:1354-1470 | Inserts or replaces the one row of a pair index and touches nothing else |
| ExperimentRecord.ExperimentTable.ReplaceExperimentCheckpointPairs | backend/app/database.py:1472-1588 | Replaces all pair rows and touches nothing else |
| ExperimentRecord.ExperimentTable.UpdateCheckpoint | backend/app/database.py:2177-2216 | Writes the count and the metadata in one transaction |
| ExperimentRecord.ExperimentTable.FinishExperiment | backend/app/database.py:2177-2216 | Sets the final status and count and clears checkpoint and pair rows in one transaction |
| ExperimentRecord.ExperimentTable.CancelExperiment | backend/app/service.py:1623-1655 | Cancels a ready row at once, marks any other unfinished row, and leaves a finished one alone |
| ExperimentRecord.ExperimentTable.Initialize | backend/app/database.py:365-374 | At start, exactly the rows that were active become retryable |
| ExperimentService.StorePair | backend/app/service.py:2233-2266 | Two durable writes with interference around them keep the store sound at every point, and afterwards the pair is counted |
| ExperimentService.ResumeStored | backend/app/service.py:1896-1976 | Migrating an embedded checkpoint and recording the resumed run keep the store sound and bring the worker to the loop |
| ExperimentService.StartStored | backend/app/service.py:1977-2126 | Starting from scratch and committing the prepared cognition keep the store sound |
| ExperimentService.EnterLoop | backend/app/service.py:1871-2126 | Resumes a verified checkpoint under its cognition, starts fresh with the prepared one, or refuses counted pairs without a matching checkpoint |
| ExperimentService.FinishStored | backend/app/service.py:2277-2339 | Aggregation finds every pair and the completing write stores the result of an uninterrupted run |
| ExperimentService.AuditEnding | backend/app/service.py:2340-2466 | The audit event after a final status is a second transaction: when it fails the row is overwritten as failed, or stays when that write fails too, and nothing but the status changes |
| ExperimentService.RunExperiment | backend/app/service.py:1871-2466 | However the worker ends, a failing audit event included, the store is sound; a result is that of an uninterrupted run under the cognition frozen in the checkpoint, or else prepared, in a row with a completed, invalidated or failed status and no checkpoint; each arm in the result and in the counted pairs is simulated on its own seeds with its own value; cancellation clears the checkpoint, and one recorded before the start lets no pair be added to a result |
| StoppingRule.StoppingRuleConfig.AlignStoppingRule | backend/app/schemas.py:269-275 | The aligned rule ends at the seed count, keeps a minimum that fits and stays valid |
| StoppingRule.StoppingDecision | backend/app/service.py:3951-4068 | The loops compute the next decision of the specification, including the first-satisfied pairs carried over: interval, reasons and conditions follow from the differences intervention minus baseline |
| StoppingRule.DecisionReports | backend/app/service.py:3958-4068 | From the differences intervention minus baseline alone: the interval and its half width from the minimum on, what triggers and in which order, and each condition as it holds now |
| StoppingRule.RunReports | backend/app/service.py:3958-4068 | After any number of pairs the decision reports the interval of exactly those pairs, and none before the minimum |
| StoppingRule.FirstHeldStep | backend/app/service.py:4021-4042 | Carrying a recorded first pair over, or recording the current one, always yields the least pair at which the condition held |
| StoppingRule.EvaluationsRecordFirstPairs | backend/app/service.py:4013-4042 | After any number of pairs each evaluation tells whether its condition holds now and the first pair at which it ever held |
| StoppingRule.TriggeredExactlyWhenTerminal | backend/app/service.py:4044-4068 | A decision is triggered exactly when a terminal condition holds, and the sample limit is the primary reason whenever it is reached |
| SingleFlight.RunInv | backend/app/single_flight.py:136-270 | The flight table, cache, lock map, lock holders, bounds and histories agree in every state of every interleaving |
| SingleFlight.OneExecutingPerPrincipal | backend/app/single_flight.py:198-204 | Over all interleavings, at most one operation of a principal is executing |
| SingleFlight.TablesMatch | backend/app/single_flight.py:136-196 | The remembered locks are exactly those of principals with active flights; active and completed keys are disjoint and both tables stay bounded |
| SingleFlight.AtMostOncePerWindow | backend/app/single_flight.py:145-270 | A second operation for a key starts only after the first flight was cleaned up, and a full retry window later unless the first outcome could not be replayed or its entry was evicted or cleared |
| SingleFlight.OwnHashOnly | backend/app/single_flight.py:147-176 | A caller waits for, or is given, only outcomes produced for its own key under its own request hash |
| SingleFlight.ReplaysWithinWindow | backend/app/single_flight.py:147-163 | While an outcome is cached a retry under the same hash replays it without a new operation, and another hash is refused |
| SingleFlight.OnlyFirstCleanupActs | backend/app/single_flight.py:220-260 | Of all cleanups that race for a flight only the first under its own key does anything, so a stale one never touches a newer flight |
| SingleFlight.CleanupStores | backend/app/single_flight.py:216-260 | The cleanup that acts caches a replayable outcome for a whole window from now, at the cost of at most one entry, of the least expiry, and only when the cache is full |
| SingleFlight.EveryRequestIsAnswered | backend/app/single_flight.py:144-188 | In every state of every run: an unexpired outcome is replayed, a flight in progress is joined, another hash is refused, and any other key becomes a waiting flight behind its principal's lock, whoever else is active; capacity is refused exactly when the key is neither remembered nor active and every place is taken |
| SingleFlight.WaiterCanRun | backend/app/single_flight.py:170-204 | From every state of every run a waiting request can come to run and to end in any way |
| SingleFlight.TwoRequestsQueue | backend/app/single_flight.py:163-204 | A run: two requests of one principal are both awaited, the second waits while the first executes, and executes after it |
| SingleFlight.ClearForgets | backend/app/single_flight.py:122-129 | Clearing a principal forgets its outcomes and nothing else |
| SingleFlight.EvictionIsFifo | backend/app/single_flight.py:238-249 | The entry evicted to make room is the one that was inserted first |
| SingleFlight.OutcomesArePermanent | backend/app/single_flight.py:136-270 | Whatever follows, a flight keeps its key and hash and, once finished, its outcome |
| SingleFlight.HeldLockMeansActive | backend/app/single_flight.py:256-260 | After the last flight of a principal is retired its lock is never held, so the lock is always forgotten |
| SingleFlight.CleanupKeepsInv | backend/app/single_flight.py:220-260 | Retiring a flight, making room, caching and releasing the principal keep all the tables in agreement |
| SingleFlight.ResultInterpretationSingleFlight.PurgeExpired | backend/app/single_flight.py:119-125 | Removes exactly the entries whose window is over and reports how many |
| SingleFlight.ResultInterpretationSingleFlight.ClearPrincipal | backend/app/single_flight.py:127-134 | Removes exactly the completed entries of one principal and reports how many |
| SingleFlight.ResultInterpretationSingleFlight.ExecuteRequest | backend/app/single_flight.py:144-188 | The locked part of a request: purge, then replay, join, refuse or launch, each exactly when it should; with room and a key in neither table it waits for a new task, whoever else is active |
| SingleFlight.ResultInterpretationSingleFlight.FindOldest | backend/app/single_flight.py:239-243 | The scan finds the least expiry, and the first inserted entry among equals |
| SingleFlight.ResultInterpretationSingleFlight.CleanupFlight | backend/app/single_flight.py:220-260 | One cleanup has exactly the specified effect on all tables |
| RateLimiter.RefinesFullHistory | backend/app/rate_limit.py:47-125 | Deciding on pruned buckets and the pruned table gives the same outcome as counting every event ever admitted in the window, the new state stands for the new history, and a rejection charges no bucket and no row |
| RateLimiter.AdmittedExactlyWithRoom | backend/app/rate_limit.py:56-100 | In every run a check is admitted exactly when, for each of its rules, fewer events than its limit were charged to its bucket within the window that ends now |
| RateLimiter.ChargesAllOrNone | backend/app/rate_limit.py:102-121 | An admitted check adds its time once to each of its buckets, in memory or in the table, and a rejected one adds nothing |
| RateLimiter.RejectionEvictsNothing | backend/app/rate_limit.py:56-100 | A rejected check keeps every bucket and the table |
| RateLimiter.NoWindowExceedsItsLimit | backend/app/rate_limit.py:47-125 | Over any run with a monotone clock, distinct keys per request and one window per key, no window of that length ever holds more events than the largest limit used for the key |
| RateLimiter.PruneIsLive | backend/app/rate_limit.py:61-63 | Popping expired heads leaves exactly the events after the cutoff |
| RateLimiter.PurgeKeepsCounts | backend/app/rate_limit.py:73-89 | Deleting expired rows changes no count that can still be asked for |
| RateLimiter.AppendKeepsSpacing | backend/app/rate_limit.py:103-121 | Admitting below the limit keeps any limit+1 consecutive events a full window apart |
| RateLimiter.RetryAfterExact | backend/app/rate_limit.py:63-100 | The announced wait suffices exactly when the event that fills the quota leaves the window within the same whole second as the oldest one, which is so when the window holds no more than the limit; a wait over a second shorter never does |
| RateLimiter.RetryAfterIsSoundAndTight | backend/app/rate_limit.py:56-121 | When the rule that rejects carries the one limit of its bucket and nothing else is admitted, it admits after the announced wait and rejects at any wait over a second shorter |
| RateLimiter.BoundRaisesExactly | backend/app/rate_limit.py:158-176 | The eviction raises exactly when two or more keys are over the limit once empty buckets are gone and one remaining key is unprotected |
| RateLimiter.BoundMeetsSnapshot | backend/app/rate_limit.py:158-176 | When it does not raise it leaves what eviction over a snapshot of the keys leaves |
| RateLimiter.SnapshotEvictionBounds | backend/app/rate_limit.py:168-176 | That eviction meets the limit or leaves only protected keys, and drops no protected key |
| RateLimiter.BoundEvictsOldest | backend/app/rate_limit.py:158-176 | Over the limit the empty buckets go; a bucket with events goes only if that does not suffice, at most one, and every older bucket that stays is protected; the rest stays as it was and in order |
| RateLimiter.SnapshotEvictsOldest | backend/app/rate_limit.py:168-176 | Eviction over a snapshot, too, takes the oldest unprotected buckets first, however many it takes |
| RateLimiter.FreshOutlivesOld | backend/app/rate_limit.py:102-176 | A bucket charged for the first time stays whenever an older, unprotected one with events could go instead |
| RateLimiter.ProtectionIsRemembered | backend/app/rate_limit.py:56-58 | Once a check reaches a protected rule in memory, its key is protected and its bucket kept in every later state, however the check ends |
| RateLimiter.ProtectedSurvive | backend/app/rate_limit.py:158-176 | No protected bucket is dropped, not even when the eviction raises |
| RateLimiter.TwoNewKeysAtCapacityFail | backend/app/rate_limit.py:103-176 | With every place taken by a bucket in use, a request under two new keys is charged and then fails |
| RateLimiter.RunKeepsOrder | backend/app/rate_limit.py:47-176 | In every reachable state the dictionary order lists every bucket exactly once |
| RateLimiter.SlidingWindowRateLimiter.Check | backend/app/rate_limit.py:47-125 | The loops over deques, rows and keys have exactly the specified outcome and effect |
| RateLimiter.SlidingWindowRateLimiter.PassMemory | backend/app/rate_limit.py:56-65 | The pass over the memory rules prunes and judges bucket by bucket as specified and stops at the first rejection |
| RateLimiter.SlidingWindowRateLimiter.Bound | backend/app/rate_limit.py:158-176 | Empty buckets go first, then the oldest unprotected ones, in one draw from the live iterator as specified |
| RateLimitRules.RateLimitRules | backend/app/main.py:5030-5213 | The list holds one rule for every bucket the request counts in and no other, no bucket twice, each with its own window and protection and the limit the request has in it, at least one and at most the largest of the bucket |
| RateLimitRules.KeysAreDecodable | backend/app/main.py:5030-5213 | A rendered key determines its bucket family, scope and subject |
| RateLimitRules.RulesAreGood | backend/app/main.py:5030-5213 | Every request that a process receives names each bucket at most once, always with the one window of the bucket and a positive limit no larger than the largest that such a process uses for the bucket |
| RateLimitRules.ServiceNeverExceedsItsLimits | backend/app/main.py:5030-5213 | No sequence of requests to a process ever puts more events into a bucket's window than the bucket's largest limit there: 8 and 10 for the address buckets of questions and provider calls without accounts, 120 with them |
| RateLimitRules.StrangersOverflow | backend/app/rate_limit.py:103-176 | Plain writes at any times, each from its own address and session: when their buckets fill the memory, the next such write is charged and its check then fails |
| RateLimitRules.OverflowIsReached | backend/app/rate_limit.py:103-145 | A process of either kind reaches that failure after half as many writes as its memory has places |
| RetryPromise.PromiseKeptExceptForWrites | backend/app/main.py:5030-5213 | Over all runs of a process, with accounts or without, a bucket keeps the promise of Retry-After exactly when it is not one of the two write buckets, which guided-workflow writes and plain writes share under different limits |
| RetryPromise.OneLimitKeepsPromise | backend/app/main.py:5038-5213 | In every run of a process, whatever was asked before, every bucket but the write buckets admits after the wait it announced |
| RetryPromise.EveryRejectionHasABucket | backend/app/rate_limit.py:56-100 | Behind every rejection in every run of a process is a bucket that the request counts in |
| RetryPromise.WritesBreak | backend/app/main.py:5161-5165 | A run: forty guided-workflow writes, then a plain write of the session, which is still rejected by its address after the announced wait |
| RetryPromise.SessionWritesBreak | backend/app/main.py:5161-5165 | The same for the session bucket, with a plain write from another address |
| AuditChain.EveryRunVerifies | backend/app/database.py:376-397 | Over every run from every linked log, with rows of any owner and legacy rows without one, whatever is appended, retired, claimed or erased: all accounts verify in every state exactly when each chain has one viewer at the start and every append and claim is safe, which is checked before it |
| AuditChain.ClaimVerifiesExactlyUnmixed | backend/app/database.py:376-397 | After a claim of any linked log all accounts verify exactly when, before it, no chain mixes unowned rows with rows of another account or rows of two accounts |
| AuditChain.VerifyExactlyWithOneViewer | backend/app/database.py:1047-1099 | In a linked log all accounts verify exactly when each chain is seen by one account |
| AuditChain.FreshRunsAreSafe | backend/app/database.py:939-994 | Without legacy rows every step of every run is safe |
| AuditChain.UnsafeStepFails | backend/app/database.py:376-397 | An unsafe append or claim leaves some account that no longer verifies |
| AuditChain.SafeStepIsSound | backend/app/database.py:939-994 | A safe step keeps all chains linked and seen by one account, erasing and retention included |
| AuditChain.AppendKeepsLinks | backend/app/database.py:948-984 | Appending to one chain keeps every chain linked |
| AuditChain.AppendRecords | backend/app/database.py:943-984 | One row is added, which holds the event field by field as it was given, its session as chain and owner, the newest hash of that session, and the digest of the seven fields joined by the separator |
| AuditChain.ChainHoldsWhatWasAsked | backend/app/database.py:939-994 | As long as nothing is retired or erased, a session's chain holds exactly the events appended under it, in order, whatever is claimed |
| AuditChain.RetentionEnforces | backend/app/database.py:1228-1258 | Nothing goes while a row is unowned; otherwise a row stays exactly when its chain has a row that is not older than the cutoff |
| AuditChain.VisibleExactly | backend/app/database.py:1049-1057 | An account sees the rows it owns and the unowned rows of its own session |
| AuditChain.ErasureTakesOwn | backend/app/privacy.py:235-260 | Erasing an account removes exactly the rows it owns |
| AuditChain.RetentionKeepsLinks | backend/app/database.py:1248-1258 | Deleting whole chains by age keeps the survivors linked |
| AuditChain.MaterialIsDecodable | backend/app/database.py:954-964 | The joined material determines every field as long as only the payload contains the separator |
| AuditChain.MaterialIsAmbiguousOtherwise | backend/app/database.py:954-964 | With a separator in an identifier two different rows have one material |
| AuditChain.EqualHeadsMeanEqualChains | backend/app/database.py:1058-1082 | Two verifying chains with the same head are equal row for row in every hashed field and both hashes |
| AuditChain.HashesAreDistinct | backend/app/database.py:954-965 | No event hash occurs twice in a verifying chain |
| AuditChain.OnlyPrefixesVerify | backend/app/database.py:1248-1258 | However rows of a chain are selected, repeated or rearranged, they verify exactly when they are a prefix of it, so part of a chain cannot be retired without breaking the rest |
| AuditChain.AccountVerifiesExactlyPrefixes | backend/app/database.py:1047-1099 | An account's chains verify exactly when it sees a prefix of each |
| AuditChain.ClaimingPartOfAChainBreaksIt | backend/app/database.py:376-397 | Two runs from a legacy log after which an account no longer verifies: a session continues its chain before, or after, another account claims the beginning |
| AuditChain.NoBreaksMeansLinked | backend/app/database.py:1058-1082 | One scan with a previous hash per chain finds no break exactly when every chain is linked |
| AuditChain.SortingKeepsChains | backend/app/database.py:1050-1057 | Ordering the rows by session and id keeps every chain as it is |
| AuditChain.AuditLog.LatestHash | backend/app/database.py:949-953 | The newest event hash of the session |
| AuditChain.AuditLog.AppendAuditEvent | backend/app/database.py:939-994 | Adds one row at the end that holds session, event and session owner field by field under the next id, linked to the newest row of its session |
| AuditChain.AuditLog.Enforce | backend/app/database.py:1216-1258 | Nothing happens while any row of any table is unowned; otherwise exactly the chains without a row at or after the cutoff are deleted, and every other chain is as it was |
| AuditChain.AuditLog.ClaimLegacyRecords | backend/app/database.py:376-397 | Gives every unowned row to the account, changes nothing else in the log and counts them; an empty account changes nothing |
| AuditChain.AuditLog.CombineHeads | backend/app/database.py:1083-1092 | One chain is represented by its head, several by the digest of all heads in the order of their sessions |
| AuditChain.SingleHeadStands | backend/app/database.py:1083-1092 | One chain is represented by its own head, and no chain by none |
| AuditChain.AggregateDeterminesHeads | backend/app/database.py:1083-1092 | The combined digest of several chains determines their names and heads |
| AuditChain.EqualAggregatesMeanEqualChains | backend/app/database.py:1047-1099 | Two verifying views of several chains with one combined digest hold the same chains row for row |
| AuditChain.AuditLog.VerifyAuditChain | backend/app/database.py:1047-1099 | Valid exactly when every chain the account sees is linked; the report names the first broken row and its predecessor, or the combined head, the number of chains and that of the rows the account sees |
| InterpretationStore.RunInv | backend/app/database.py:1723-1837 | In every state of every run there is one row per request, no row of a deleted conversation, and the per-owner and global caps hold |
| InterpretationStore.DeletionIsPermanent | backend/app/database.py:1979-2014 | Once a conversation has been deleted no later step of any run brings one of its rows back |
| InterpretationStore.RowsNeverChange | backend/app/database.py:1800-1837 | A row never changes while it is kept and its id is never given to another |
| InterpretationStore.SaveIsIdempotent | backend/app/database.py:1789-1798 | While a request's row survives the prune, saving the request again returns that row and stores nothing |
| InterpretationStore.SaveIsAnswered | backend/app/database.py:1752-1837 | Every answer of a save exactly when it is given, and what it leaves: a created row holds what the request brought, an error changes nothing |
| InterpretationStore.RetriedSaveReturnsTheRow | backend/app/database.py:1789-1798 | After a created save, while its row survives the prune and its experiment stays completed, saving the request again answers with that very row and creates nothing, whatever happened in between |
| InterpretationStore.OtherQuestionIsRefused | backend/app/database.py:1789-1798 | While that row survives, another question under its request id is refused and changes nothing |
| InterpretationStore.DeletionDeletes | backend/app/database.py:1966-2014 | Exactly the rows of the conversation go, and a marker is written exactly when there were any |
| InterpretationStore.PruneDropsOnly | backend/app/database.py:2426-2467 | The prune of an owner drops only what has expired or has the cap's number of newer rows, and leaves nothing expired |
| InterpretationStore.RetentionRemovesExactlyTheExpired | backend/app/database.py:2426-2467 | In every state of every run retention removes exactly the rows older than 90 days |
| InterpretationStore.SavedRowSurvives | backend/app/database.py:1822-1837 | When saves are stamped in order and the prune runs within the retention period, the row just saved is still there |
| InterpretationStore.SaveKeepsInv | backend/app/database.py:1761-1837 | A save, successful or rolled back, keeps the table in order and within its caps |
| InterpretationStore.CapIsExact | backend/app/database.py:2448-2467 | A cap drops nothing below its limit and otherwise leaves exactly as many rows as it allows |
| InterpretationStore.DroppedAreOlder | backend/app/database.py:2448-2467 | Every row that a cap drops is older than every row of its owner that it keeps |
| InterpretationStore.DeletedIsBarred | backend/app/database.py:1986-2003 | Deleting a conversation that had rows leaves none of them and a marker |
| InterpretationStore.InterpretationHistory.RankOf | backend/app/database.py:2449-2467 | The place of a row in the newest-first order |
| InterpretationStore.InterpretationHistory.DeleteBeyond | backend/app/database.py:2448-2467 | Keeps exactly the newest rows of one owner or of all |
| InterpretationStore.InterpretationHistory.SaveExchange | backend/app/database.py:1723-1837 | One transaction that ends in each outcome exactly when it should: a created row holds the request field by field, a retry gets the row stored before, another question under its id fails; an error rolls everything back, the first prune included |
| InterpretationStore.InterpretationHistory.Delete | backend/app/database.py:1966-2014 | Exactly the rows of the conversation go, and a marker is written and success reported exactly when it had any |
| InterpretationDeletion.OnlyLaterAnswersRemain | backend/app/main.py:4322-4353 | After a successful deletion, now or in any later state, everything stored of the conversation comes from an answer asked for after the deletion: answers that were queued or running are never inserted again |
| InterpretationDeletion.DeletionOfAnswersIsFinal | backend/app/main.py:3947-3964 | After a deletion that found something, in every continuation nothing of the conversation is stored and every request for an answer in it is refused before a cached answer could be replayed |
| InterpretationDeletion.ReportedDeletionWasCarriedOut | backend/app/main.py:4341-4353 | A deletion answered from the cache was carried out before; it leaves something of the conversation stored exactly when it had found nothing and an answer asked for after it is still stored |
| InterpretationDeletion.RepeatedDeletionIsReplayed | backend/app/main.py:4341-4353 | While the outcome of a deletion is cached, deleting again reports the same outcome and changes nothing that is stored |
| InterpretationDeletion.RepeatedDeletionLeavesAnswer | backend/app/main.py:4341-4353 | So a retried deletion can report success while an answer stays stored: a concrete run |
| InterpretationDeletion.OperationsRunInOrder | backend/app/single_flight.py:170-204 | Operations of one account begin in the order in which they were asked for, each after all earlier ones have finished |
| InterpretationDeletion.RunInv | backend/app/main.py:4308-4353 | Over all interleavings of answers, deletions, cleanups and retention, from any stored history, the coordinator, the history and the record of who stored what agree |
| InterpretationDeletion.AnswerKeepsDeletion | backend/app/main.py:3868-3898 | A save at the end of an answer keeps what every successful deletion promised |
| InterpretationDeletion.ErasureKeepsInv | backend/app/main.py:4322-4333 | A deletion that ends while it holds the lock covers everything stored by earlier operations |
| CognitionScheduler.PreparedIsSound | backend/app/service.py:2876-3492 | Every returned sequence follows the schedule on observations of earlier rounds, ends for the stated reason and survived its pilot; a preparation fails closed only on a sequence that followed the schedule and that the pilot could not replay |
| CognitionScheduler.CallsStayWithinPlan | backend/app/service.py:2884-3423 | In every outcome, attempts never exceed min(budget, representatives x rounds) and equal the completed calls plus at most one failed call; so too for the calls and discarded signals that a fail-closed report counts |
| CognitionScheduler.HybridMeansEveryCallValid | backend/app/service.py:3437-3444 | The hybrid mode is reported exactly when every planned call completed with a structurally valid decision |
| CognitionScheduler.ModesAreExact | backend/app/service.py:3437-3444 | The reported mode by the number of signals that used a fallback: a rule fallback when all did or there is no signal, a partial one when some did or the calls were cut short, the hybrid mode otherwise |
| CognitionScheduler.OutcomesHaveReasons | backend/app/service.py:2701-2900 | Exactly when the rules alone, a missing prerequisite or an empty plan are reported, and that errors are raised only where fallbacks are not allowed |
| CognitionScheduler.StrictModeHasNoFallback | backend/app/service.py:3166-3212 | Without permission to fall back no signal is a rule fallback and no failed call or open circuit is returned |
| CognitionScheduler.SignalsSurvivedEveryPilot | backend/app/service.py:3329-3435 | Signals are returned only when the pilot succeeded at the end of every round, so a failed pilot returns none |
| CognitionScheduler.ObservationsIgnoreTheirOwnRound | backend/app/service.py:3009-3061 | If the model may answer differently from the beginning of a round on, two preparations still show every representative of that round the same observation |
| CognitionScheduler.ShownFromEarlierRounds | backend/app/service.py:3009-3064 | What each call is shown: the market that replays the earlier rounds, the representative's decision of the round before, and the reviewed posts followed by the first eight messages published in the round before, cut off at twenty-four |
| CognitionScheduler.RepeatsBounded | backend/app/service.py:3312-3327 | While the circuit is closed no fallback reason has come up three times |
| CognitionScheduler.MemoryOfEarlierRounds | backend/app/service.py:3040-3054 | A representative's memory, taken from all signals so far, is that of the earlier rounds |
| CognitionScheduler.RunRound | backend/app/service.py:3021-3327 | One round with its counters is the specified part of the schedule, and its totals count exactly what happened |
| CognitionScheduler.RunRounds | backend/app/service.py:2998-3444 | The rounds with their pilot reruns compute the specified preparation |
| CognitionScheduler.PrepareCognitiveSignals | backend/app/service.py:2701-3492 | Early exits and rounds compute the specified preparation |
| SignTest.PValueIsExact | backend/app/service.py:4190-4200 | With n differences off zero, the p-value is the fraction of all 2^n sign vectors whose smaller count is at most the smaller of the numbers of differences above and below zero; it is one when there are none |
| SignTest.SignsAreCounted | backend/app/service.py:4191-4192 | The counts are those of the differences above and below zero |
| SignTest.ClampBindsOnlyOnTies | backend/app/service.py:4200 | The clamp to one binds exactly on a tie |
| SignTest.NegationInvariant | backend/app/service.py:4190-4200 | Negating all differences leaves the p-value unchanged |
| SignTest.TiesAreDropped | backend/app/service.py:4191-4195 | A zero difference changes nothing, and differences that are all zero give one |
| SignTest.ChooseCounts | backend/app/service.py:4197 | A binomial coefficient counts the sign vectors with that many plus signs |
| SignTest.ExtremeCount | backend/app/service.py:4196-4200 | Away from a tie the extreme outcomes are two disjoint tails of equal size; on a tie they are all outcomes |
| SourceBatching.CognitionSourceBatches | backend/app/main.py:4659-4683 | Batches concatenate back to the sources in order, are non-empty with at most 8 sources and at most 160000 characters unless a singleton, and no other contiguous batching that meets the limits has fewer |
| SourceBatching.GreedyStaysAhead | backend/app/main.py:4670-4682 | After any number of batches the greedy batching has covered at least as many sources as any other |
| SourceBatching.GreedyIsOptimal | backend/app/main.py:4659-4683 | No batching within the limits has fewer batches than the greedy one |
| ClaimQuota.TotalStaysWithinMaximum | backend/app/main.py:4715-4740 | Whatever the model answers, no claim is empty or repeated and the total stays within the maximum |
| ClaimQuota.NoBatchStarves | backend/app/main.py:4715-4720 | With an obedient model and a maximum of at least the number of batches, every batch is asked |
| ClaimQuota.FullQuotasFillTheMaximum | backend/app/main.py:4715-4740 | If every batch that is asked fills its quota with fresh claims the total is exactly the maximum |
| ClaimQuota.QuotaLeavesEnough | backend/app/main.py:4716-4720 | A share never exceeds what remains, leaves a claim for every later batch, is everything for the last, and is the least with which all that remains can be taken |
| ClaimQuota.KeepNewClaims | backend/app/main.py:4730-4740 | The inner loop keeps exactly the new claims, as answered and in order, up to the maximum |
| ClaimQuota.AbsorbKeepsTheNew | backend/app/main.py:4729-4740 | Claims are kept as they were answered, the first of each kind, and no claim of a new kind is passed over while there is room |
| ClaimQuota.ExtractEventClaimsInBatches | backend/app/main.py:4708-4740 | Both loops compute the specified claims |
| ScenarioDiff.ChangesRoundTrip | backend/app/scenario_service.py:138-187 | For two configurations of one schema the changes applied to the baseline yield the intervention, and are none exactly when the two are equal |
| ScenarioDiff.PatchRebuildsExactly | backend/app/scenario_service.py:171-187 | For any two documents the changes rebuild the intervention exactly when it has every key of the baseline and no key that is new to it is null |
| ScenarioDiff.NoChangeMeansSameValues | backend/app/scenario_service.py:171-187 | No change is reported exactly when the documents are equal up to missing keys and nulls |
| ScenarioDiff.MissingAndNullAreConfused | backend/app/scenario_service.py:177-180 | Across schemas neither law holds: concrete documents |
| ScenarioDiff.ChangesArePrefixFree | backend/app/scenario_service.py:171-187 | No changed path leads to or into another |
| ScenarioDiff.ChangesInOrder | backend/app/scenario_service.py:176-187 | The changes are listed in the order of their keys, at every level |
| ScenarioDiff.ComplianceMeansOneValue | backend/app/scenario_service.py:147-152 | A comparison is compliant exactly when the configurations agree everywhere off one value below the intervention |
| ScenarioDiff.ChangesAreLeaves | backend/app/scenario_service.py:171-187 | Every change names a path of the baseline, its value there, and a different value, not both objects |
| ScenarioDiff.OneChangeReported | backend/app/scenario_service.py:171-187 | Changing one value is reported as exactly that change |
| ScenarioDiff.PrefixMeansFirstKey | backend/app/scenario_service.py:151-152 | The test of the dotted path for the prefix is a test of its first key |
| ScenarioDiff.PathsAreDecodable | backend/app/scenario_service.py:178-179 | Dotted paths of plain keys determine the keys |
| Text.SortedKeys | backend/app/scenario_service.py:178 | The keys, each once, in strictly increasing lexicographic order |
| ScenarioDiff.CollectDiff | backend/app/scenario_service.py:171-187 | The traversal appends exactly the specified changes, with their dotted paths, to the list |
| ScenarioDiff.DiffConfigs | backend/app/scenario_service.py:138-153 | Reports the specified changes, their number, and compliance, which for plain keys means one value changed below the intervention |
| FirewallMigration.UfwHost.EnsureScopedUfwRule | scripts/register-baota-site.py:466-503 | With any command failing: success ends in exactly the expected rule, or the old rules are back, or the error says that rollback failed; each outcome has its condition, and without failing commands a rollback is entered only after trouble; only owned rules are deleted; a refusal or an unreadable firewall changes nothing; until a rollback begins the expected rule, once present, stays; while it restores nothing is removed; and if none of its commands fails every later state holds all old rules |
| FirewallMigration.RuleByWords | scripts/register-baota-site.py:234-325 | Which words a rule has at which place, and which rules the program takes for its own |
| FirewallMigration.UfwHost.Migrate | scripts/register-baota-site.py:478-496 | Success ends in exactly the expected rule; once present, the expected rule is in every later state; nothing is added but that rule; without faults the migration succeeds |
| FirewallMigration.UfwHost.AddExpected | scripts/register-baota-site.py:479-482 | Adds at most the expected rule and succeeds only if it, and nothing else, was added |
| FirewallMigration.UfwHost.Rollback | scripts/register-baota-site.py:425-463 | Success means the old rules are back; nothing is removed while restoring; if no rollback command fails, every state from the first removal on still holds all old rules, and the rollback succeeds |
| FirewallMigration.UfwHost.Restore | scripts/register-baota-site.py:431-445 | Removes nothing, adds only rules that were there, and restores all of them unless a command fails |
| FirewallMigration.UfwHost.RemoveExcess | scripts/register-baota-site.py:447-458 | Deletes only owned rules, and none below its old count |
| FirewallMigration.UfwHost.RemoveOthers | scripts/register-baota-site.py:484-489 | Leaves the expected rule in every state and, without faults, nothing else |
| FirewallMigration.UfwHost.DeleteOwned | scripts/register-baota-site.py:382-398 | Deletes only an owned rule, at most once, and succeeds only if exactly one occurrence is gone |
| FirewallMigration.MigrationHolds | scripts/register-baota-site.py:484-489 | Deleting the next rule, effective or not, leaves the expected rule and adds nothing |
| FirewallMigration.RemoveOneCounts | scripts/register-baota-site.py:382-398 | Removing one occurrence lowers one count by one |
| SentenceRecovery.RecoveryAccounts | backend/app/event_pack_claims.py:276-318 | Before de-duplication the recovered words are source words in source order, and what is missing is exactly the pieces judged noise and a last fragment that never became complete |
| SentenceRecovery.AcceptedAreDistinct | backend/app/event_pack_claims.py:385-410 | No two accepted sentences are near duplicates, and none is without significant tokens |
| SentenceRecovery.DroppedHaveDuplicates | backend/app/event_pack_claims.py:385-410 | A sentence that is not accepted has no significant tokens or resembles one accepted before it |
| SentenceRecovery.SecondPassChangesNothing | backend/app/event_pack_claims.py:401-410 | A second pass of de-duplication changes nothing |
| SentenceRecovery.GatherAccounts | backend/app/event_pack_claims.py:279-295 | Joining lines into paragraphs keeps every word but those of noise lines, in order |
| SentenceRecovery.ParagraphsEndAtBreaks | backend/app/event_pack_claims.py:276-295 | No paragraph goes on past a blank line or a line that ends in terminal punctuation |
| SentenceRecovery.UnbrokenLinesAreOneParagraph | backend/app/event_pack_claims.py:276-295 | Lines without such a break make one paragraph of all their words but noise |
| SentenceRecovery.PiecesEndRightly | backend/app/event_pack_claims.py:297-303 | A paragraph is cut after every word that ends a sentence and nowhere else |
| SentenceRecovery.SentencesAreJoined | backend/app/event_pack_claims.py:297-317 | Every recovered sentence starts with a complete one and goes on with leading fragments only, and none but the first starts with a leading fragment |
| SentenceRecovery.RecoverAccounts | backend/app/event_pack_claims.py:297-313 | Joining fragments into sentences keeps every word but those of noise pieces, in order |
| SentenceRecovery.IsDuplicateFingerprint | backend/app/event_pack_claims.py:385-398 | The scan finds a duplicate exactly when there is one |
| SentenceRecovery.DeduplicateSentences | backend/app/event_pack_claims.py:401-410 | The loop accepts exactly the specified sentences |
| SentenceRecovery.LogicalLines | backend/app/event_pack_claims.py:279-295 | The first loop computes the specified paragraphs |
| SentenceRecovery.PreprocessSourceText | backend/app/event_pack_claims.py:276-318 | The loops compute the specified sentences, de-duplicated |
| SentenceRecovery.ExtractRuleFallbackClaims | backend/app/event_pack_claims.py:123-192 | The claims quote the first distinct sentences over all sources, as many as the maximum allows, each from its own source, with only the first one required; bad arguments are refused |

## Left out

- The market engine, paired aggregation, bootstrap, Holm correction and the model gateway: only their being functions of their arguments, or arbitrary, is used.
- Several experiments at once, the queue capacity, and the retention and deletion of experiments by the worker's side: one experiment's row is modelled.
- Progress, runtime logs, telemetry and the contents of the worker's audit events: it does not read them back. An audit event that cannot be appended is a failure of the worker at that point.
- Invalidation and cancellation are one step each; the code reads the row before it writes.
- JSON and zlib bytes, payload hashes of stored blobs and SQL text: encodings are the identity and a corrupt blob is a read that fails.
- Cancellation always finishing: a retryable row can be marked for cancellation with no worker left to see it, so it is not claimed.
- ExperimentRunner.RetryCompletes: supposes the event pack of the checkpoint is still available and that no further fault happens.
- SingleFlight.AtMostOncePerWindow: a flight whose outcome cannot be replayed, cancelled ones included, is excepted, as in the code.
- RateLimiter.NoWindowExceedsItsLimit: the in-memory count starts afresh when a bucket that still held events is evicted; the stored count never does.
- AuditChain.EveryRunVerifies: rows without an owner come first in their chains, as they were written before accounts existed.
- RetryPromise.PromiseKeptExceptForWrites: the memory bound is at least 800 buckets; the default is 10000.
- RateLimiter.RetryAfterIsSoundAndTight: the rejecting rule carries the one limit of its bucket, because the promise is false otherwise; RetryPromise.PromiseKeptExceptForWrites says which buckets have one.
- Failures of the rate-limit database: opening and writing it always succeed.
- How a request is authenticated: a process either requires accounts and authenticates every limited write before its rules are asked for, or knows none (`Received`).
- Header, cookie and path parsing behind the rate-limit rules: the route, client address, account and session digest are given.
- InterpretationStore.DeletionIsPermanent: rests on experiment identifiers never being given out twice; erasing an account, which removes its markers with its rows, is not a step of the model.
- InterpretationDeletion.OnlyLaterAnswersRemain: one service process; the history may come from earlier ones, but no other process stores answers during the run.
- Trimming of identifiers, field length checks and the secret scan before a save: one given verdict.
- CognitionScheduler.PreparedIsSound: the contents of a market observation, the agent profile and approved evidence are functions of round, representative and pilot and are represented by the pilot.
- Token, cost and latency counters of the scheduler, and the rounding of reported rates.
- Rounding of the sign test: the fraction is a real number; the code divides integers into a float.
- Holm correction and the diagnostics that use the sign test.
- SourceBatching.CognitionSourceBatches: the two limits are the defaults, the only values used.
- Python's equality of booleans and numbers in the difference of configurations: values of different kinds differ in the model.
- Other firewall managers, the panel, Nginx and Docker: only the rule list for the internal port and its commands.
- FirewallMigration.UfwHost.Delete: the command names a rule without its comment; the firewall is taken never to hold two rules that differ only in the comment.
- Regular expressions for noise, completeness, leading fragments, terminal punctuation and tokens: given functions of words.
- Confidence scores, impact channels and identifiers of fallback claims: content of a claim that the selection does not depend on.
- Routes, middleware, mail, legal text, front end, replay and export.
