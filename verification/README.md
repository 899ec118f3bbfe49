# Zenos Runtime: the stateful engines

Zenos Runtime is a control plane for model calls. Underneath the calls it holds a number of small
stateful engines; this project models each of them as a Dafny module and proves what it keeps.

| engine | modules |
|---|---|
| token governor: a reservation ledger with two ceilings, mirrored to persisted rows | `TokenLedger`, `TokenGovernor` |
| command job: durable ordered steps committed on evidence | `CommandJob`, `CommandJobEffects`, `CommandJobStore` |
| coding task and autonomous loop: phase graph, checkpoint and rollback, bounded revisions | `CodingTask`, `AutonomousLoop`, `AutonomousLoopSafety`, `AutonomousLoopRecords`, `AutonomousLoopOutcomes`, `AutonomousLoopScope` |
| cognitive task and gateway postflight: acceptance checks, continuation budget, completion | `CognitiveTask`, `GatewayPostflight` |
| result cache | `RuntimeCache`, `RuntimeCacheClass` |
| rate limiter, command semaphore | `RateLimit`, `ResourceGovernor` |
| incremental repository index | `RepositoryIndex` |
| continuity packet: canonical form, hash, message selection | `ContinuityPacket`, `ContinuityMessages` |
| bounded texts and packets | `TokenEconomy`, `ContextCompiler` |
| secret literals in service configuration | `ServiceCredentials`, `SecretTexts`, `SecretNames` |

Where the program changes stored state, a class or method makes the same assignments and loops, and is
proved to leave exactly the state a pure function gives; the lemmas about whole runs are about those
functions. Exceptions are returned values, and an operation that raises leaves what it had written.
Replies of models, tools, policies and the store are parameters: an environment is a function from the
moment of the question to the answer, so a lemma for every environment covers every sequence of replies.
`Wrappers` and `Numbers` hold what all modules share.

`dafny verify dfyconfig.toml` checks the whole project.

Statements one might expect that do not hold of the code, each with its exact condition or a concrete case:

- a bare step transition can reopen a done step (`CommandJob.TransitionReopensIff`);
- postflight can commit validation while patch is open, and then raises (`CommandJob.GuardFiresIff`);
- rollback stops at a checkpointed empty file (`CodingTask.RestoreCompleteIff`);
- a candidate that fails between two patches is not recorded (`AutonomousLoopRecords.CandidateRecordsIff`,
  `AutonomousLoopSafety.TornCandidateUntracked`);
- the loop trips a phase guard on tasks in other phases (`AutonomousLoopSafety.GuardFreeIff`);
- the semaphore passes its maximum exactly when a request barges (`ResourceGovernor.WithinLimitIff`,
  `ResourceGovernor.BargingRunPassesLimit`);
- a record under the empty key stops eviction, so the cache can pass its limits (`RuntimeCache.RunFitsIff`,
  `RuntimeCache.EmptyKeyPassesLimit`);
- an oversized set leaves the older record in place, so a lookup may answer with it (`RuntimeCache.GetReturnsLatest`
  speaks of the latest accepted set);
- a budget found expired starts again unspent (`TokenGovernor.ForgottenIffExpired`);
- an ASCII truncation can exceed a small budget when 16 times the scale does (`TokenEconomy.FloorFitsIff`);
- validation does not look at pool credentials (`ServiceCredentials.PoolCredentialUnchecked`);
- an object with keys the locale ties is hashed by the order its keys came in (`ContinuityPacket.OrderIrrelevantIff`,
  `ContinuityPacket.TiedKeysMatter`);
- indexing raises on a reference to a symbol named like a property of every object (`RepositoryIndex.BuildRaisesIff`);
- postflight raises over a question, an idle session or an exhausted coding task (`GatewayPostflight.RaisedIff`), and
  over a mutation its coding task cannot take, as after a completed autonomous run (`GatewayPostflight.RefusedIff`,
  `GatewayPostflight.CompletedLoopRefused`);
- a turn can fail a task whose continuation it has just queued (`GatewayPostflight.ScheduledYetFailedIff`), or complete
  a coding task whose mutation is unresolved (`GatewayPostflight.CompletedYetUnresolvedIff`).

## Model

| member | source | states |
|---|---|---|
| TokenLedger.GrantIffFits | app/lib/token-governor.ts:103-135 | a call is granted if and only if its rounded estimate, at least one token, fits beside everything spent and reserved under the limit, less the reserve if it is optional; a grant books exactly that estimate, a denial changes nothing and names what is left |
| TokenLedger.SettleExact | app/lib/token-governor.ts:137-171 | what a settlement leaves, in all cases: believed usage is charged as reported, usage that was rejected or is too far above the reservation costs the reservation and counts as an anomaly, a call not attempted costs nothing, and exactly its own reservation is gone |
| TokenLedger.StepExact | app/lib/token-governor.ts:59-97 | a call under a plan first raises the two ceilings to the plan, never lowers them, and reports the ledger it leaves |
| TokenLedger.OvershootBound | app/lib/token-governor.ts:137-171 | a settlement charges more than its reservation r by at most max(2048, r, 2500 - r), and by at most 1 when the reported usage was rejected |
| TokenLedger.StepCommitted | app/lib/token-governor.ts:103-171 | every grant leaves spent plus reserved within the ceiling of its kind; any other call raises it by no more than the charge passes its reservation; spent stays within the limit |
| TokenLedger.RunWithinLimit | app/lib/token-governor.ts:103-171 | over any run under any changing plans, spent never passes the limit, and spent plus reserved passes it by no more than the summed overshoot of the charges |
| TokenLedger.SpentIsChargedUpToLimit | app/lib/token-governor.ts:137-171 | conservation: under one plan the spend is the sum of all charges, cut off at the limit |
| TokenLedger.CountersExact | app/lib/token-governor.ts:150-166 | over any run, the calls counted are the attempted settlements, the anomalies are among them and the rejected reports among these |
| TokenLedger.MandatoryCallStillGranted | app/lib/token-governor.ts:103-135 | what the reserve is for: after any run of optional calls under one plan, a mandatory call is granted whenever it asks for no more than the reserve less what charges overshot |
| TokenLedger.ReservedTotal | app/lib/token-governor.ts:99-101 | the loop over the reservations computes their total |
| TokenGovernor.Governor.CleanupStale | app/lib/token-governor.ts:31-40 | deletes exactly the governors not touched within their time to live |
| TokenGovernor.Governor.LookUp | app/lib/token-governor.ts:59-97 | finds the governor in memory, or restores it from an active unexpired row, or starts a fresh one, and raises its ceilings to the plan |
| TokenGovernor.Governor.AuthorizeTokenSpend | app/lib/token-governor.ts:103-135 | in memory and in the persisted rows, does to the budget what the ledger says and answers as it does |
| TokenGovernor.SettleInPlace | app/lib/token-governor.ts:147-165 | the assignments of a settlement amount to the ledger settling the request once |
| TokenGovernor.Governor.SettleTokenSpend | app/lib/token-governor.ts:137-171 | in memory and in the persisted rows, settles the request as the ledger does and answers with the ledger after it |
| TokenGovernor.Governor.TokenGovernorSnapshot | app/lib/token-governor.ts:173-187 | answers with the ledger as it stands, having looked it up like any other call |
| TokenGovernor.Governor.CompleteTokenBudget | app/lib/token-governor.ts:189-192 | forgets the budget in memory and marks its row finished |
| TokenGovernor.SnapshotAfterWrite | app/lib/token-governor.ts:168-187 | reading a budget back in the instant it was written gives exactly what was written and changes nothing |
| TokenGovernor.CallRefinesLedger | app/lib/token-governor.ts:42-97 | one call on a live budget answers as the bare ledger does and records the ledger's next state wherever the budget is recorded |
| TokenGovernor.RestartsAreInvisible | app/lib/token-governor.ts:42-97 | in any run, losing the in-process map at any points, other budgets and the passing of time change no answer as long as no use finds the budget expired |
| TokenGovernor.SameCallsSameAnswers | app/lib/token-governor.ts:42-97 | two schedules that make the same calls on a budget get the same answers, wherever their restarts fall |
| TokenGovernor.ForgottenIffExpired | app/lib/token-governor.ts:31-97 | the condition is exact: a look at the budget shows the recorded state if and only if the budget is live, unless the record says no more than a fresh one |
| TokenGovernor.BookedForAnHour | app/lib/token-governor.ts:31-97 | a booking is seen by a look at the budget for exactly an hour, with one millisecond less in another process than in the one that made it; after that the budget is unspent |
| TokenGovernor.FinishedIsForgotten | app/lib/token-governor.ts:189-192 | a finished budget is unspent at the next look, its row stays for thirty days marked finished and without reservations, and no other budget changes |
| TokenGovernor.PunctualNeverExpires | app/lib/token-governor.ts:31-97 | a condition on times alone: no use finds the budget expired when the clock does not go back and each use comes within the hour of the last settlement or granted call on it, whatever restarts and other budgets do in between |
| TokenGovernor.PunctualRunsAreLedgers | app/lib/token-governor.ts:31-97 | from an empty governor, calls that keep to those times are answered as the bare ledger answers them, wherever the process restarts |
| TokenGovernor.ApplyWithinLimits | app/lib/token-governor.ts:59-97 | no event, expiry and restart included, leaves any budget in memory or in a row spent past its limit |
| CommandJob.RequiredStepKinds | app/lib/command-job.ts:82-95 | the kinds are those the decision needs, once each, in rank order |
| CommandJobEffects.RequiredIsListed | app/lib/command-job.ts:82-95 | these are, for each task type, the steps listed for it, with a review before the delivery when a reviewer or the risk asks for one |
| CommandJob.CreatedInv | app/lib/command-job.ts:137-205 | a newly created job runs its route step with all others queued, waits for approval if the decision asks for it, and satisfies the invariant of every later run |
| CommandJob.PrefixDoneMeansPrefix | app/lib/command-job.ts:118-120 | the invariant used says what it should: done steps form a prefix by ordinal |
| CommandJob.TransitionReopensIff | app/lib/command-job.ts:207-247 | a bare transition loses nothing done if and only if it names no step of the job, or one that is not done, or sets it done |
| CommandJob.TransitionKeeps | app/lib/command-job.ts:207-247 | a transition under its callers' guard keeps the prefix, the active step and everything already done |
| CommandJobEffects.TransitionExact | app/lib/command-job.ts:207-247 | a transition of an existing step is refused exactly when it would run or finish the step over an open one; otherwise it writes that step alone, makes the first open step active and sets the status of the job, in all cases |
| CommandJob.CommitOpenExact | app/lib/command-job.ts:425-430 | a commit raises if and only if the step is open and some step of lower rank is, and then changes nothing; otherwise it closes exactly that kind |
| CommandJob.PreflightCommitsUpToPlan | app/lib/command-job.ts:249-308 | whatever state the steps were in, preflight never raises and leaves route and inspect done, and plan too once there is a plan reference |
| CommandJobEffects.PreflightExact | app/lib/command-job.ts:249-308 | what preflight does to every step: those below patch are committed as far as they may be, a queued patch is started exactly when a mutation is expected, no approval is needed and all below is done, nothing else changes, and a job that needs approval waits for it |
| CommandJobEffects.ResumeExact | app/lib/command-job.ts:310-340 | which jobs are resumed, and that of their steps only a first open one sent back for a retry changes |
| CommandJobEffects.PauseExact | app/lib/command-job.ts:342-371 | pausing sends a running active step back for a retry, which is counted, and changes no other step |
| CommandJobEffects.EndingsExact | app/lib/command-job.ts:531-582 | cancelling blocks every open step, failing fails the active one if it is open; neither counts a retry |
| CommandJob.CompleteExact | app/lib/command-job.ts:373-398 | completion succeeds if and only if every step but deliver is done, and then every step is done and none is active |
| CommandJob.RecoverKeeps | app/lib/zenos-runtime-store.ts:792-957 | a process restart keeps the invariant and reopens nothing, whatever it finds of the root task |
| CommandJobEffects.RecoverExact | app/lib/zenos-runtime-store.ts:792-957 | what a restart does to every step, to the active step and to the status of a job, for every status of its root task |
| CommandJob.DeliveranceExact | app/lib/command-job.ts:484-528 | when a delivery raises and with which error, in all cases; one that does not raise leaves the job completed with all steps done |
| CommandJob.PostflightErrorExact | app/lib/command-job.ts:400-529 | when postflight raises and with which error, for every stored job and every combination of evidence |
| CommandJob.GuardFiresIff | app/lib/command-job.ts:432-439 | with route, inspect and plan committed, the predecessor guard fires if and only if validation passed while patch and validate are open and no mutation was observed |
| CommandJob.CompletedIffEvidence | app/lib/command-job.ts:400-529 | postflight leaves a job completed exactly on the evidence it is meant to demand: validation after a mutation, a review or a passed validation without a block for verify, and nothing pending |
| CommandJob.ContinuationRetriesOnce | app/lib/command-job.ts:441-463 | a continuation adds exactly one retry, to the first open step when the job names it as active, and none elsewhere |
| CommandJobEffects.PostflightWhileOpen | app/lib/command-job.ts:415-482 | a turn that goes on or waits for the user finishes exactly the patch it saw and the validation that passed, and leaves the active step to be retried or blocked |
| CommandJobEffects.PostflightFailure | app/lib/command-job.ts:407-413 | a turn that fails for good or is blocked fails the job and its open active step, whatever else it brought |
| CommandJob.ApplyKeeps | app/lib/command-job.ts:207-582 | every entry point, raising or not, keeps the invariant and never reopens a done step or lowers a retry count |
| CommandJob.RunKeeps | app/lib/command-job.ts:137-582 | so does any run of preflights, postflights, pauses, resumes, completions, cancellations, failures, restarts and caller-guarded commits |
| CommandJobStore.StoredJob.constructor | app/lib/command-job.ts:137-205 | the rows written for a new job are those of the specification |
| CommandJobStore.StoredJob.TransitionCommandStep | app/lib/command-job.ts:207-247 | the stored rows after a transition, and its error, are those of the specification |
| CommandJobStore.StoredJob.SynchronizeCommandJobPreflight | app/lib/command-job.ts:249-308 | the stored rows after preflight are those of the specification |
| CommandJobStore.StoredJob.ResumeCommandJob | app/lib/command-job.ts:310-340 | the stored rows after resuming are those of the specification |
| CommandJobStore.StoredJob.PauseCommandJob | app/lib/command-job.ts:342-371 | the stored rows after pausing are those of the specification |
| CommandJobStore.StoredJob.CompleteCommandJob | app/lib/command-job.ts:373-398 | the stored rows after completion, and its error, are those of the specification |
| CommandJobStore.StoredJob.SynchronizeCommandJobPostflight | app/lib/command-job.ts:400-529 | the stored rows after postflight, and its error, are those of the specification, whichever of its exits is taken |
| CommandJobStore.StoredJob.CancelCommandJob | app/lib/command-job.ts:531-559 | the stored rows after cancelling are those of the specification |
| CommandJobStore.StoredJob.FailCommandJob | app/lib/command-job.ts:561-582 | the stored rows after failing are those of the specification |
| RuntimeCache.ExcessShortest | app/lib/runtime-cache.ts:217-223 | eviction drops the shortest oldest prefix after which it may stop |
| RuntimeCache.UnexpiredExact | app/lib/runtime-cache.ts:213-216 | the first pass of eviction drops exactly the expired records and keeps the order of the rest |
| RuntimeCache.OutsideExact | app/lib/runtime-cache.ts:179-186 | invalidating a namespace drops exactly the records whose key has its prefix |
| RuntimeCache.RunTraces | app/lib/runtime-cache.ts:91-136 | after any run, keys are unique and every record is the latest accepted set for its key, hit counts aside |
| RuntimeCache.GetReturnsLatest | app/lib/runtime-cache.ts:91-111 | after any run, a lookup answers with the latest accepted set for its key, unexpired and with matching revisions, or with nothing |
| RuntimeCache.GetExact | app/lib/runtime-cache.ts:91-111 | what every lookup answers and leaves: it is a hit exactly on a record under its key that has not expired and has the same revisions, which is counted and made the youngest; any other record under the key is dropped |
| RuntimeCache.HitAfterSet | app/lib/runtime-cache.ts:91-136 | after any run and an accepted set, a lookup of the key answers the value exactly until it expires and for the same revisions |
| RuntimeCache.RememberedOnce | app/lib/runtime-cache.ts:138-149 | a value remembered is answered again at the same moment, whatever the producer would give then |
| RuntimeCache.DeleteExact | app/lib/runtime-cache.ts:170-177 | deleting a key takes out the one record under it and keeps the others in order |
| RuntimeCache.NewRecordExpires | app/lib/runtime-cache.ts:113-128 | a record lives for the time asked for, between a second and a day, and for a minute when none is given |
| RuntimeCache.RememberIsProducer | app/lib/runtime-cache.ts:138-149 | when everything ever set under a key is what the producer gives for that key, remembering answers what calling the producer would |
| RuntimeCache.SetFitsIff | app/lib/runtime-cache.ts:113-136 | an accepted set leaves the cache within its limits if and only if the unexpired records from one under the empty key on, if there is one, fit |
| RuntimeCache.RunFitsIff | app/lib/runtime-cache.ts:91-224 | the number of records and their bytes stay within the limits throughout a run if and only if every accepted set of it passes that check |
| RuntimeCache.RunFits | app/lib/runtime-cache.ts:113-136 | in particular they stay within the limits throughout a run that never sets the empty key |
| RuntimeCache.EmptyKeyPassesLimit | app/lib/runtime-cache.ts:113-136 | for any limits, two sets on an empty cache, the first under the empty key, leave both records and pass a limit if together they are too large |
| RuntimeCache.EmptyKeyBlocksEviction | app/lib/runtime-cache.ts:217-220 | what happens then: an oldest record under the empty key stops all eviction |
| RuntimeCache.JustSetSurvives | app/lib/runtime-cache.ts:113-136 | an accepted set leaves its own record in the cache, youngest of all |
| RuntimeCache.HitsAndMissesCountGets | app/lib/runtime-cache.ts:91-111 | hits plus misses is the number of lookups |
| RuntimeCacheClass.Cache.Get | app/lib/runtime-cache.ts:91-111 | the lookup, with its deletions and its move to the young end, on the record list and the running byte total |
| RuntimeCacheClass.Cache.Set | app/lib/runtime-cache.ts:113-136 | the set, an oversized one returning before anything is deleted, keeping the byte total the sum of the records |
| RuntimeCacheClass.Cache.Remember | app/lib/runtime-cache.ts:138-149 | a lookup, and on a miss a set of what was produced |
| RuntimeCacheClass.Cache.Delete | app/lib/runtime-cache.ts:170-177 | removes the record of the key, if any, and its bytes from the total |
| RuntimeCacheClass.Cache.EvictIfNeeded | app/lib/runtime-cache.ts:212-224 | the two loops of eviction leave what the specification of eviction keeps, and count what they dropped |
| RuntimeCacheClass.Cache.InvalidateNamespace | app/lib/runtime-cache.ts:179-187 | the loop removes the records of the namespace and counts them |
| RateLimit.Limiter.Cleanup | app/lib/rate-limit.ts:31-38 | every 500th call deletes exactly the buckets not seen for an hour |
| RateLimit.Limiter.CheckRateLimit | app/lib/rate-limit.ts:40-60 | refills, charges and answers for one key and leaves the buckets of all others alone |
| RateLimit.RequestExact | app/lib/rate-limit.ts:40-60 | what one request finds, takes and is told: a new key starts full, tokens refill by the clock up to the capacity, and it is admitted exactly when they cover its cost, which it takes |
| RateLimit.BurstAdmits | app/lib/rate-limit.ts:40-60 | of requests at one moment, the first n are admitted exactly when the tokens cover n times the cost |
| RateLimit.SweepExact | app/lib/rate-limit.ts:31-38 | a sweep takes exactly the buckets not seen for more than an hour |
| RateLimit.AdmittedWithinBucket | app/lib/rate-limit.ts:40-60 | from a known bucket, the cost admitted over any run of requests is within its tokens and what was refilled since |
| RateLimit.WindowBound | app/lib/rate-limit.ts:40-60 | the cost admitted in any window is at most the capacity plus the refill over the window |
| RateLimit.SweepsAreInvisible | app/lib/rate-limit.ts:31-38 | for a policy that refills its capacity within the hour, deleting stale buckets at any moments changes no answer |
| RateLimit.SweepVisibleIff | app/lib/rate-limit.ts:31-60 | the condition is exact: where a request costs the whole capacity, a sweep can be observed if and only if the shortest idle time that gets a bucket swept does not refill it |
| RateLimit.WindowBoundWithSweeps | app/lib/rate-limit.ts:31-60 | the window bound holds of the limiter as it runs, sweeps included |
| RateLimit.TableRefillsWithinHour | app/lib/rate-limit.ts:20-26 | every policy of the table refills within the hour |
| RateLimit.RetryAfterAdmits | app/lib/rate-limit.ts:48-60 | a denied request retried alone after the advised seconds is admitted if and only if its cost is within the capacity, and after no fewer seconds |
| ResourceGovernor.Governor.AcquireSlot | app/lib/resource-governor.ts:108-112 | takes a slot or joins the queue |
| ResourceGovernor.Governor.ReleaseSlot | app/lib/resource-governor.ts:117-120 | gives the slot back and wakes the first waiter |
| ResourceGovernor.Governor.ResumeWaiter | app/lib/resource-governor.ts:113-114 | a woken waiter counts itself only now |
| ResourceGovernor.EveryInterleaving | app/lib/resource-governor.ts:108-120 | in every interleaving the counter is the number of holders, nobody waits while a slot is free or on its way, and slots in use or promised pass the maximum by at most the requests that barged in before a woken waiter |
| ResourceGovernor.WokenFirstInFirstOut | app/lib/resource-governor.ts:108-120 | waiters are woken in the order they queued |
| ResourceGovernor.WaitersCanProgress | app/lib/resource-governor.ts:108-120 | while anyone waits, some holder can release or some woken waiter can resume |
| ResourceGovernor.StepPassesIff | app/lib/resource-governor.ts:108-120 | from within the limit, a step brings the slots in use and promised past the maximum if and only if it is a request admitted while the woken waiters are due every slot that is left |
| ResourceGovernor.SettledReaches | app/lib/resource-governor.ts:108-120 | when the woken waiters have resumed, the counter is all that was in use or promised |
| ResourceGovernor.WithinLimitIff | app/lib/resource-governor.ts:108-120 | at every point of a run the counter stays within the maximum once the woken have resumed, if and only if no request of the run barges |
| ResourceGovernor.NoBargingKeepsLimit | app/lib/resource-governor.ts:108-120 | in particular a run without barging ends with no more than the maximum in use |
| ResourceGovernor.OneBargeBreaksLimit | app/lib/resource-governor.ts:108-120 | from any full state with a waiter, a release, one barging request and the waiter resuming make the counter pass the maximum |
| ResourceGovernor.BargingRunPassesLimit | app/lib/resource-governor.ts:108-120 | such a state is reached: for every maximum there is a run from the idle state that ends with one more in use |
| RepositoryIndex.ParseFiles | app/lib/repository-intelligence.ts:459-499 | the first pass keeps exactly the files within the size limit, reuses exactly the unchanged records, and its counters add up |
| RepositoryIndex.LinkImports | app/lib/repository-intelligence.ts:501-516 | resolves every file's imports among the indexed files and fills both graphs |
| RepositoryIndex.LinkReferences | app/lib/repository-intelligence.ts:518-549 | every file's references, reused or parsed, and the union of those off their defining lines; raises if and only if one of these is to a symbol with a name every object answers to |
| RepositoryIndex.BuildRepositoryIndex | app/lib/repository-intelligence.ts:449-588 | on any cached index, the build returns or raises as the specification of an incremental build says; on none or a genuine one as the full rebuild does; the counters are exact |
| RepositoryIndex.BuildRaisesIff | app/lib/repository-intelligence.ts:538-543 | a build raises if and only if some indexed file mentions, off its defining line, a name that some indexed file defines and every object already answers to |
| RepositoryIndex.IncrementalIsFull | app/lib/repository-intelligence.ts:455-549 | building on a genuine previous index gives the index of a full rebuild in files, symbols, references and both graphs |
| RepositoryIndex.ChainsAreRebuilds | app/lib/repository-intelligence.ts:449-588 | over any chain of builds, with other roots, forced rebuilds, unpersisted results, lost caches and builds that raise in between, every build returns the full rebuild, or raises as that would |
| RepositoryIndex.ReverseIsTranspose | app/lib/repository-intelligence.ts:503-516 | the reverse import graph is exactly the transpose of the import graph and lists only files that are imported |
| RepositoryIndex.IndexGraphs | app/lib/repository-intelligence.ts:501-516 | in an index, every edge leads from an indexed file to an indexed file, and the two graphs are each other's transpose |
| RepositoryIndex.ReferencesExact | app/lib/repository-intelligence.ts:518-549 | the references are exactly the mentions, off their defining lines, of names that some indexed file defines |
| RepositoryIndex.FilesExact | app/lib/repository-intelligence.ts:470-494 | the record of every indexed file says what its bytes, its path and its text say |
| RepositoryIndex.SymbolsExact | app/lib/repository-intelligence.ts:518-519 | the symbols are exactly those of the readable files |
| RepositoryIndex.ImportEdgesExact | app/lib/repository-intelligence.ts:331-351 | the edges of the import graph are exactly those from a readable file to the first indexed candidate of one of its relative imports |
| RepositoryIndex.ReusedExact | app/lib/repository-intelligence.ts:477-480 | the records reused are those of the files whose path and content hash were indexed before |
| RepositoryIndex.NextBuildReusesAll | app/lib/repository-intelligence.ts:449-588 | after a build that returned and was persisted, in any chain, building the same files again reuses every one of them |
| RepositoryIndex.FirstInside | app/lib/repository-intelligence.ts:331-351 | a resolved import is one of the indexed files, and an import stays unresolved only if no candidate is indexed |
| RepositoryIndex.KeptSubset | app/lib/repository-intelligence.ts:464-470 | the files indexed are exactly those within the size limit |
| CodingTask.TransitionLegal | app/lib/codex-execution-core.ts:177-187 | the recorded steps are always a path through the phase graph from its start to the current phase |
| CodingTask.StepsAreDisciplined | app/lib/codex-execution-core.ts:177-187 | patches come right after inspection, revisions after an analysed failure, both only before targeted validation, full validation only after that, and nothing after the summary |
| CodingTask.CodingRuntime.TransitionCodingTask | app/lib/codex-execution-core.ts:296-319 | moves the task only along the phase graph and only while active; a violated guard changes nothing |
| CodingTask.SnapshotFitsIff | app/lib/codex-execution-core.ts:394-416 | a checkpoint is refused if and only if the sizes of its files add up to more than the limit |
| CodingTask.CodingRuntime.CreateCodingCheckpoint | app/lib/codex-execution-core.ts:385-444 | adds a checkpoint of the first hundred files as they are, or raises on the size limit, or when the diff or the snapshot fails, and adds none |
| CodingTask.RestoreCompleteIff | app/lib/codex-execution-core.ts:463-478 | a rollback runs through if and only if no checkpointed file was empty |
| CodingTask.RestoreAgrees | app/lib/codex-execution-core.ts:463-478 | a rollback gives each path the checkpointed content or leaves it alone, also when it stops half way; every checkpointed path when it runs through, and never any other path |
| CodingTask.CheckpointRoundTrip | app/lib/codex-execution-core.ts:385-478 | a checkpoint of the first hundred files fits exactly within twelve million bytes unless told otherwise; then any edits and a rollback: it succeeds if and only if no checkpointed file was empty, and checkpointed paths are as before and all others as edited |
| CodingTask.RollbackExact | app/lib/codex-execution-core.ts:446-484 | what a rollback leaves on disk and of the task, and with which fault it stops, in all cases |
| CodingTask.CodingRuntime.RollbackCodingCheckpoint | app/lib/codex-execution-core.ts:446-484 | the loop restores the entries in order; the restored paths leave the list of changed files only when it runs through |
| CodingTask.CodingRuntime.RecordCodexPatch | app/lib/codex-execution-core.ts:676-723 | moves an inspected task to patching, guards the phase, and records the files and the verdict |
| CodingTask.RecordedIff | app/lib/codex-execution-core.ts:676-723 | changes are recorded exactly when the phase allows it and the policy answers; the status, the phase and the files recorded follow |
| CodingTask.CodingRuntime.RunCodexValidationStage | app/lib/codex-execution-core.ts:802-922 | enters the stage under its guards, runs the tools up to the first failure, and moves the task on by their results |
| CodingTask.StagePassesIff | app/lib/codex-execution-core.ts:836-922 | a stage passes if and only if it ran some tools and all succeeded, fails if and only if it had none or one failed or was blocked, and waits for remote validation otherwise; the phase follows |
| CodingTask.StageByReplies | app/lib/codex-execution-core.ts:802-922 | how a stage ends by the replies of its tools alone: passed when all succeed, failed without tools or at the first that fails, raising when it may not be entered or a tool throws first |
| CodingTask.CodingRuntime.BeginCodingRevision | app/lib/codex-execution-core.ts:790-800 | a revision begins only after an analysed failure |
| CodingTask.CodingRuntime.RecordRemoteValidationResult | app/lib/codex-execution-core.ts:924-956 | a remote result is taken only in full validation and ends it either way |
| CodingTask.RevisionAndRemoteExact | app/lib/codex-execution-core.ts:790-956 | exactly when a revision begins and a remote result is taken, and what each leaves |
| CodingTask.CodingRuntime.PrepareCodexExecution | app/lib/codex-execution-core.ts:639-666 | brings a task to inspection and gives it a checkpoint unless it has one |
| CodingTask.PreparedReady | app/lib/codex-execution-core.ts:639-666 | a new task is prepared if and only if its files fit the checkpoint limit and the checkpoint can be written, and is then ready for the loop with a checkpoint of the disk as it is |
| CodingTask.PrepareExact | app/lib/codex-execution-core.ts:639-666 | when any task is prepared, with which fault it is not, and what preparing changes |
| AutonomousLoop.RunAutonomousCodingLoop | app/lib/autonomous-coding-loop.ts:330-607 | the loop over attempts, with its error handler, ends as the specification of a run says |
| AutonomousLoop.ApplyPatchCandidate | app/lib/autonomous-coding-loop.ts:228-287 | patches are sent one by one; the files changed are recorded only when none failed; a blocked candidate is rolled back |
| AutonomousLoop.ReadyTripsNoGuard | app/lib/autonomous-coding-loop.ts:330-607 | on an active task in inspection, patching or revision, no replies of models, tools or policy make the loop violate a phase guard, and it never falls out of the loop without a result |
| AutonomousLoopSafety.GuardFreeIff | app/lib/autonomous-coding-loop.ts:330-607 | exactly when that is so: the loop can violate a guard for some replies if and only if writing is approved and the task is not active in one of those phases |
| AutonomousLoopSafety.RunIsSound | app/lib/autonomous-coding-loop.ts:330-607 | for any replies and any state: at most maxRevisions + 2 and so at most 5 model calls, no patch without approval, and every file differing from the checkpoint is recorded as changed or was left by a candidate that failed before it was recorded |
| AutonomousLoopOutcomes.AnswerByLastEvent | app/lib/autonomous-coding-loop.ts:330-607 | what a run answers, by the last event of its history, for all replies: completed if and only if it was approved and a full stage of successful tools came last, remote if and only if a stage that waits did, given up if and only if there was an error, and the other answers likewise |
| AutonomousLoopOutcomes.FailureTakesAllRevisions | app/lib/autonomous-coding-loop.ts:338-567 | a failed validation is reported only after the first candidate and as many revisions as were asked for, two by default and three at most |
| AutonomousLoopOutcomes.CandidateCompletesIff | app/lib/autonomous-coding-loop.ts:466-538 | a candidate completes a run exactly when every patch is of an allowed file and goes through, the policy lets it pass and all tools of both stages succeed; the files are then as patched and recorded |
| AutonomousLoopOutcomes.RunCompletes | app/lib/autonomous-coding-loop.ts:330-538 | an approved run on a ready task whose replies are of that kind is completed by its first candidate |
| AutonomousLoopScope.RunStaysInScope | app/lib/autonomous-coding-loop.ts:218-245 | for any replies, a run patches only files it planned, that inspection gave or that the request allows, and any other file that was as in the checkpoint is so at its end |
| AutonomousLoopSafety.RunsTracked | app/lib/autonomous-coding-loop.ts:228-287 | the same over any chain of runs, rollbacks included: if no candidate failed between its patches, every differing file is recorded |
| AutonomousLoopRecords.CandidateRecordsIff | app/lib/autonomous-coding-loop.ts:228-287 | exactly when a candidate leaves a file changed and unrecorded: the replies to its patches cut it off, or its phase or the policy keeps it from being recorded, and what those replies and the error handler leave on disk differs at a path not recorded before |
| AutonomousLoopRecords.RunRecordsIff | app/lib/autonomous-coding-loop.ts:330-607 | a run that starts with every difference recorded ends so if and only if no candidate of its attempts is of that kind |
| AutonomousLoopSafety.TornCandidateUntracked | app/lib/autonomous-coding-loop.ts:242-287 | a concrete case: a candidate that fails on its second patch leaves the first file changed, unrecorded and not rolled back |
| AutonomousLoopSafety.CompletedIsEarned | app/lib/autonomous-coding-loop.ts:516-538 | a run is completed only with approval, in the final phase, right after a full stage that ran some tools and whose tools all succeeded; without approval nothing changes |
| AutonomousLoopSafety.RunFollowsGraph | app/lib/autonomous-coding-loop.ts:330-607 | for any replies, the steps a run records continue the path of the task through the phase graph, on every exit |
| AutonomousLoopSafety.RefusalRestores | app/lib/autonomous-coding-loop.ts:452-564 | a blocked candidate or an exhausted revision budget leaves every checkpointed file as it was at the checkpoint, and so does a worker without a patch unless nothing is recorded as changed |
| CognitiveTask.UniqueBounded | app/lib/cognitive-task.ts:89-102 | the loop keeps the first occurrences, up to the limit but at least one |
| CognitiveTask.UniqueExact | app/lib/cognitive-task.ts:89-102 | the kept texts are normal with distinct keys, none is missing below the limit, and taking the list again changes nothing |
| CognitiveTask.UniqueKeepsPrefix | app/lib/cognitive-task.ts:89-102 | when more texts follow some texts, the unique list of the first stays in front |
| CognitiveTask.MergeKeepsChecks | app/lib/cognitive-task.ts:116-138 | adding criteria loses no check: the existing ones come first as they were, the new ones are required and pending |
| CognitiveTask.NewCapsuleAligned | app/lib/cognitive-task.ts:209-265 | a new task has one required, pending check for each of its criteria |
| CognitiveTask.PrepareKeepsProgress | app/lib/cognitive-task.ts:168-199 | going on with a task keeps all its checks and its cycle, never lowers its budget, and only reactivates it when it waited and nothing blocks |
| CognitiveTask.PrepareExact | app/lib/cognitive-task.ts:154-268 | which task a turn works on: the session's task if the turn reuses it or it waits, active again unless the turn blocks, and otherwise a new one at cycle zero, the old one being cancelled |
| CognitiveTask.AttemptsExact | app/lib/cognitive-task.ts:360-399 | a continuation is queued as the next cycle exactly while the budget lasts; a restart counts a cycle up to the budget |
| CognitiveTask.CognitiveStore.PrepareCognitiveTask | app/lib/cognitive-task.ts:154-268 | goes on with the open task, or cancels it for a new one at cycle zero |
| CognitiveTask.CognitiveStore.UpdateCognitiveTask | app/lib/cognitive-task.ts:270-327 | changes the status, checks and cycle it is given and nothing else |
| CognitiveTask.CognitiveStore.ScheduleCognitiveContinuation | app/lib/cognitive-task.ts:360-399 | queues the next attempt and counts the cycle, or refuses beyond the budget |
| CognitiveTask.CognitiveStore.RecoverAfterRestart | app/lib/zenos-runtime-store.ts:895-937 | a restart counts a cycle up to the budget |
| GatewayPostflight.MutationObservedIff | app/lib/gateway-orchestration.ts:322-331 | a mutation is observed if and only if both workspace states are known and differ in the dirty diff or in the set of changed files |
| GatewayPostflight.SatisfiedIff | app/lib/gateway-orchestration.ts:390-491 | after a turn the criteria are satisfied if and only if the Host did not fail and each required check has the evidence of its kind |
| GatewayPostflight.FailedCheckIff | app/lib/gateway-orchestration.ts:390-491 | a check has failed after a turn if and only if the Host did, or its own kind of evidence says so |
| GatewayPostflight.CodingRow.ReconcileMutation | app/lib/gateway-orchestration.ts:1286-1333 | the steps taken on the coding task over an observed mutation, with the two phase moves after a passed validation, leave what the specification says |
| GatewayPostflight.CodingRow.CountContinuation | app/lib/gateway-orchestration.ts:1866-1877 | counts one more continuation, or raises past ten and counts none |
| GatewayPostflight.RefusedIff | app/lib/gateway-orchestration.ts:1286-1333 | postflight raises over the coding task if and only if a mutation comes with the workspace's state and the phase does not let it be recorded or the policy cannot be asked; the attempts stay |
| GatewayPostflight.CodingTaskAfterTurn | app/lib/gateway-orchestration.ts:1286-1333 | when a turn completes an active coding task, when it blocks it, and which files it records, in both directions; the steps stay a path of the phase graph |
| GatewayPostflight.CompletedYetUnresolvedIff | app/lib/gateway-orchestration.ts:1259-1320 | a turn completes the coding task while its mutation is unresolved if and only if the evidence says at once that validation passed and that code is broken |
| GatewayPostflight.CompletedLoopRefused | app/lib/gateway-orchestration.ts:1286-1303 | a coding task that the autonomous loop completed makes every mutating turn with the workspace's state raise, leaving root task and job as they were |
| GatewayPostflight.PostflightTail | app/lib/gateway-orchestration.ts:1799-2028 | the tail of postflight, with its reassignments of the task, decides as the specification does, queues what it says and counts it against the coding task |
| GatewayPostflight.PostflightGatewayTurn | app/lib/gateway-orchestration.ts:1216-2047 | the whole turn on the stored root task, coding task and job: reconciliation, evidence, early exit, decision, job |
| GatewayPostflight.ContinuationWithinBudget | app/lib/gateway-orchestration.ts:1799-1900 | a continuation is scheduled if and only if one is due, the Host did not fail, the cycle is below the budget, between one and twelve, and the coding task has not had ten; it is the next attempt; the scheduler's budget error cannot occur |
| GatewayPostflight.RaisedIff | app/lib/gateway-orchestration.ts:1826-1907 | when the decision raises and with which error, for all turns: the coding task has had its ten continuations, or the scheduled one cannot be leased because nothing else is queued and the session is not working or the user was asked; only the second uses a cycle up |
| GatewayPostflight.MarkedCompletedIff | app/lib/gateway-orchestration.ts:1995-2028 | when the decision marks a task completed, for every status of the task, in both directions |
| GatewayPostflight.ActiveTaskCompletedIff | app/lib/gateway-orchestration.ts:1286-2028 | a task active at postflight is completed if and only if every required check is evidenced, no mutation is unresolved, nothing blocks, waits or was cut short, the Host did not fail and the coding task did not refuse the mutation |
| GatewayPostflight.JobFollowsTask | app/lib/gateway-orchestration.ts:1995-2047 | the job is told to deliver exactly when the task is marked completed, and to fail exactly when the task fails |
| GatewayPostflight.JobCompletedIff | app/lib/gateway-orchestration.ts:2030-2047 | the job of a completed task is completed with all steps done unless it raises, with the error the job module names; a turn that neither failed nor raised leaves a job completed only with its task |
| GatewayPostflight.JobDeliveredIff | app/lib/gateway-orchestration.ts:1995-2047 | which turns complete the job: those that mark the task completed, on a planned job, with the change validated and the review passed or stood in for |
| GatewayPostflight.AtMostTwelveContinuations | app/lib/gateway-orchestration.ts:1799-1912 | over any run of turns, preparations and restarts a root task gets at most twelve automatic continuations, with ascending attempts within its budget, numbered 1, 2, 3 and so on when there is no restart |
| GatewayPostflight.BudgetReached | app/lib/gateway-orchestration.ts:1799-1900 | the budget is reached: for every budget there is a run from a new task that has exactly as many continuations, and the turn after fails it |
| GatewayPostflight.ContinuationsOfCodingTask | app/lib/gateway-orchestration.ts:1826-1900 | over any run of turns on one coding task, every continuation counts against its ten, so there are no more than the ten less those it had |
| GatewayPostflight.NewTaskBudgeted | app/lib/cognitive-task.ts:209-265 | a new task starts within its budget with no attempt used |
| GatewayPostflight.AskingOverMutationRaises | app/lib/gateway-orchestration.ts:1846-1907 | an instance: a question to the user over an unresolved mutation uses a cycle up and then raises |
| GatewayPostflight.ScheduledYetFailedIff | app/lib/gateway-orchestration.ts:1799-2016 | a turn schedules a continuation and fails the task if and only if a review blocks while a continuation is due and can be leased; the mutation is then unresolved, or a Boss blocks a Host that stopped early |
| GatewayPostflight.BlockedYetScheduled | app/lib/gateway-orchestration.ts:1997-2016 | an instance: a blocking review over an unresolved mutation fails the task although its continuation was just scheduled |
| ContinuityPacket.CanonicalMeansEquivalent | app/lib/continuity-packet.ts:66-81 | under any order of keys, equal canonical trees come from values that agree up to the order of object keys and undefined object fields |
| ContinuityPacket.CanonicalEqualIff | app/lib/continuity-packet.ts:66-81 | canonical trees are equal if and only if the values agree so, when no object of one of them has two keys the order ties |
| ContinuityPacket.OrderIrrelevantIff | app/lib/continuity-packet.ts:66-81 | that condition is exact: the canonical tree of a value is that of every value it agrees with if and only if no object in it has tied keys |
| ContinuityPacket.TiedKeysMatter | app/lib/continuity-packet.ts:66-81 | exchanging two tied fields of an object gives one that agrees with it and has another canonical tree |
| ContinuityPacket.ParseAcceptsIff | app/lib/continuity-packet.ts:93-100 | a packet is accepted if and only if the schema accepts it and its hash is that of the rest |
| ContinuityPacket.CompiledIsAccepted | app/lib/continuity-packet.ts:351-364 | every packet the compiler returns is accepted by the parser, with the normalised payload; the compiler fails only on payloads the schema rejects |
| ContinuityPacket.ParseIdempotent | app/lib/continuity-packet.ts:93-100 | parsing an accepted packet again changes nothing |
| ContinuityPacket.HashEqualIff | app/lib/continuity-packet.ts:83-91 | normalised payloads that agree up to key order have one hash when no object has tied keys; packets with one hash have such payloads or a collision of the digest, whatever the order |
| ContinuityPacket.AcceptedHashIdentifies | app/lib/continuity-packet.ts:83-100 | accepted packets whose payloads agree up to the order of untied keys carry one hash, and those that carry one hash have agreeing payloads or a collision |
| ContinuityMessages.SelectMessages | app/lib/continuity-packet.ts:112-134 | from either end: an in-order selection of the messages, each in full or clipped, keeping the end it starts from above 64 characters and within the bound on its size; everything when everything fits |
| ContinuityMessages.SelectedFromTail | app/lib/continuity-packet.ts:118-133 | from the tail: the last message is kept, and the total is at most the budget plus the last message's name and tool id and 31 |
| ContinuityMessages.FitsStep | app/lib/continuity-packet.ts:122-128 | when all messages together fit with 64 characters to spare, each is taken unclipped |
| TokenEconomy.AllowanceAscii | app/lib/token-economy.ts:92-102 | ASCII text within the character allowance is estimated within the budget whenever 16 times the scale is |
| TokenEconomy.AllowanceAny | app/lib/token-economy.ts:92-102 | any text within the allowance is estimated at no more than 31/22 of the budget plus 3 |
| TokenEconomy.EstimateExact | app/lib/token-economy.ts:92-102 | an ASCII text is estimated at a token for every four units at the scale of one, and a text without ASCII at ten for every twenty-two |
| TokenEconomy.TruncateToTokenBudget | app/lib/token-economy.ts:328-389 | terminates; returns text that fits as it is; otherwise segments in order or two ends, within the budget for ASCII and within 31/22 of it plus 3 for any text, on every exit |
| TokenEconomy.TruncatedRenders | app/lib/token-economy.ts:328-389 | a text over budget is rendered from the greedy selection whenever that fits, or else from what thinning leaves of it; the ends are the answer only when two segments are still too long |
| TokenEconomy.TruncatedOtherwise | app/lib/token-economy.ts:328-364 | a text that fits is returned as it is; one segment or an empty selection gives the ends of the text |
| TokenEconomy.EndsExact | app/lib/token-economy.ts:334-338 | the ends: of the room beside the marker, at least 32 units, half is the head's and the rest the tail's |
| TokenEconomy.AllowanceExact | app/lib/token-economy.ts:334-335 | a budget allows 31 units for every ten tokens at the scale of one, and never less than 64 |
| TokenEconomy.GreedyExact | app/lib/token-economy.ts:344-355 | a segment is selected if and only if it fits beside the selected ones ranked before it |
| TokenEconomy.ThinnedEnds | app/lib/token-economy.ts:374-386 | thinning stops at the first rendering that fits or at two segments, and keeps the order, the first and the last |
| TokenEconomy.ThinnedLeast | app/lib/token-economy.ts:374-386 | of the inner segments, none dropped is of more importance than one kept |
| TokenEconomy.RenderNext | app/lib/token-economy.ts:365-385 | the two ways in which the segments are joined, at first and after a removal, are the same |
| TokenEconomy.TrimEndExact | app/lib/token-economy.ts:334-338 | trimming an end takes off blanks, and all of them |
| TokenEconomy.FloorFitsIff | app/lib/token-economy.ts:334-338 | the condition on the scale is exact where the 64-character floor applies |
| ContextCompiler.FitPacketToBudget | app/lib/runtime-context-compiler.ts:231-281 | the trimming loop stops at the first packet of the trimming chain within budget or with every list at its minimum, and for the compiler's own packets never on its step counter; lists are prefixes, trimmed strictly in order |
| ContextCompiler.TrimmedSurplus | app/lib/runtime-context-compiler.ts:248-281 | each trim takes one item above the minimums as long as there is one |
| ContextCompiler.TrimmedInOrder | app/lib/runtime-context-compiler.ts:248-281 | trimming leaves prefixes, and touches a list only when all lists before it are at their minimum |
| ContextCompiler.CappedSurplus | app/lib/runtime-context-compiler.ts:331-364 | a packet the compiler built has at most 170 items to give, so the 256-step guard never decides |
| ContextCompiler.LargestSurplus | app/lib/runtime-context-compiler.ts:331-364 | that bound is met by a packet as large as the compiler makes one |
| ContextCompiler.ExhaustedIff | app/lib/runtime-context-compiler.ts:243-247 | nothing more is trimmed exactly when only facts, acceptance criteria and forbidden actions are left, two of each at most |
| ContextCompiler.LastResortDropsNothing | app/lib/runtime-context-compiler.ts:283-298 | the slices of the last resort drop no item from a packet already at its minimums |
| ServiceCredentials.ReplaceLeavesNone | scripts/prepare-runtime-service-files.py:45-90 | for every configuration tree, no secret literal is left after replacement |
| ServiceCredentials.ReplaceFixedIff | scripts/prepare-runtime-service-files.py:66-90 | replacement changes a tree if and only if it holds a secret literal, and doing it twice is doing it once |
| ServiceCredentials.ReplaceIntroduces | scripts/prepare-runtime-service-files.py:45-90 | the texts replacement changes are those of the secret literals, once each, and each becomes the reference to its own path's variable |
| SecretTexts.TextsAfterReplacement | scripts/prepare-runtime-service-files.py:21-90 | place by place: after replacement a field with one of the secret names, and an entry of a pool's list of keys, holds only a blank or a reference, and every other text is where it was |
| SecretNames.NameOfPart | scripts/prepare-runtime-service-files.py:40-42 | a part of letters and digits goes into the variable's name as it is, in capitals, after an underscore |
| SecretNames.CollapseRun | scripts/prepare-runtime-service-files.py:40-42 | each run of other characters after a word is one underscore |
| SecretNames.StripUnderscoresExact | scripts/prepare-runtime-service-files.py:40-42 | underscores are taken off both ends of a part, and nothing else |
| SecretNames.DecimalExact | scripts/prepare-runtime-service-files.py:45-63 | an index in a path is its decimal digits, without leading zeros |
| ServiceCredentials.ResolveRestoresIff | scripts/prepare-runtime-service-files.py:66-90 | resolving the references gives the original tree back if and only if every generated variable holds the literal it stands for and resolving would have left the original alone |
| ServiceCredentials.AddLiterals | scripts/prepare-runtime-service-files.py:258-268 | the loop gives every variable the value it had or else the first literal generated for it, and sets no other |
| ServiceCredentials.HoldsIffNoClash | scripts/prepare-runtime-service-files.py:258-268 | the filled environment holds every literal if and only if no two of one name differ and none was set to something else before |
| ServiceCredentials.SanitisedConfigRestores | scripts/prepare-runtime-service-files.py:66-90 | with names nothing else refers to, the sanitised configuration resolves to the original if and only if the generated names do not clash |
| ServiceCredentials.SanitisedPassesIff | scripts/prepare-runtime-service-files.py:398-428 | a sanitised configuration passes validation if and only if its older secret-field references resolve and every variable generated for a secret field is set |
| ServiceCredentials.PoolCredentialUnchecked | scripts/prepare-runtime-service-files.py:408-421 | validation accepts a sanitised pool credential whose variable is not set |
| ServiceCredentials.MergedEnvironment | scripts/prepare-runtime-service-files.py:190-198 | every key bound by some source has the value of its first binding that is not empty, or else of its first binding |
| ServiceCredentials.MergedUnique | scripts/prepare-runtime-service-files.py:190-198 | so the merged environment is determined by the bindings |

## Left out

- HTTP routes, authentication, pages, metrics, gauges, logging, progress events and rendering.
- Prompts, schemas and the content of model replies; a reply that is missing, unusable or throws is one case.
- The SQLite store: rows are maps whose save overwrites and whose read returns the last save. A failing
  store, and the parsing of stored rows, are not modelled.
- Clocks are arguments. The limiter's bounds assume a clock that does not go back.
- Command job: `resultRef`, metadata and checkpoint ids of the rows, and the lookup of a job by id.
- Result cache: the asynchronous remember, stable JSON keys and their hashing, and the estimate of a value's
  size, which is given.
- TokenEconomy.TruncateToTokenBudget: estimates are over exact reals, so floating-point rounding is not
  modelled; the split into segments and their priorities are given.
- ContextCompiler.FitPacketToBudget: the token count is any function of the packet, and the shortening of texts
  in the last resort is not modelled, only which items it keeps.
- RateLimit.WindowBound: tokens are exact reals, so floating-point rounding is not modelled.
- RepositoryIndex.BuildRepositoryIndex: file enumeration and the parsers of languages, symbols, imports and identifiers are
  given functions; sorted lists without repeats are sets and the sorting of symbols is not modelled; test
  relationships, the language map, configuration files, package and git metadata and the revision are
  functions of what is modelled. The names every object answers to are a given set.
- RepositoryIndex.IncrementalIsFull: takes the content hash to be injective and the cached index to be one the program built.
- ContinuityPacket.CanonicalEqualIff: the order of keys is any total preorder; the enumeration order of integer-like keys
  is not modelled.
- ContinuityPacket.HashEqualIff: names a collision of the digest as the other case, and takes the payload schema to be an
  idempotent normaliser that may reject.
- Continuity packet: how a packet is compiled from messages (patterns over prose) and the layout of the compact
  messages with their shares of the budget.
- Coding task: of the stored state, status, phase, steps, changed files and checkpoints are kept; tool calls,
  validations, failures, risks, token usage and the minimal-patch policy's rules are not, the policy's verdict
  is given. File modes, links and directories are not modelled, and validation tools leave the files alone.
- Autonomous loop: the reads and searches of an inspection are one reply, the replacements of a patch are given
  as the content they result in, and writes are atomic.
- AutonomousLoopSafety.RunsTracked: is about one checkpoint, taken before the runs; other writers to the files are
  not modelled.
- Cognitive task: of the capsule, status, criteria, checks, cycle and budget are kept; phase, pending and completed
  work, decisions, failures, evidence lists and the fingerprint are not. One session's open task is stored.
- CognitiveTask.UniqueExact: is about texts of at most 8,000 characters, which the schema demands; a longer one cut right
  after a blank would be normalised again.
- Gateway postflight: the classification of prose (questions to the user, early stops, mutations, broken code) is
  given as flags; evidence ids and details of checks, risks noted on the coding task, leases beyond whether one can
  be taken, outcome records and the answer text are not modelled.
- GatewayPostflight.AtMostTwelveContinuations: counts what the gateway schedules; a process restart queues recovery cycles of
  its own, which use the same budget up but are not themselves bounded by it.
- ServiceCredentials.ReplaceLeavesNone: keys are texts, and letter case and blanks are those of ASCII; shell quoting of the
  stored values, YAML parsing and the rewriting of other configuration fields are not modelled.
- Real file-system paths, processes, the systemd broker and client, host-led policy, planning, latency budgets,
  the cognitive kernel, the skill registry and learning cards: branch tables and plumbing.
