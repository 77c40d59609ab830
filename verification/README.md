# Control-plane protocols: a verified model

This project models the stateful core of the control plane in Dafny and proves what it keeps over
whole runs:

- **Durable jobs.** A versioned, fenced job store (`JobModel`, `JobStore`, `JobSteps`, `JobRuns`,
  `Admission`, `Repository`) and what each change means in columns (`JobEffects`, `Promptness`); fair ranking in memory and as pruned by the database (`FairQueue`,
  `FairQuery`); the rebuildable ready index as one process keeps it and as Redis scripts keep it
  (`ReadyIndex`, `RoundRobin`, `RedisIndex`); the service that changes the store first and the index
  after it (`Agreement`, `Claiming`, `Healing`, `Service`); claim envelopes, the at-least-once delivery queue,
  and the scheduler and rebuild passes between them (`Envelopes`, `DeliveryQueue`, `Deliveries`,
  `DeliveryWorker`).
- **Billing holds.** Reservations against a monthly budget, settled by usage (`BillingHolds`,
  `BillingEffects`, `BillingRepository`).
- **Pricing canaries.** Decisions judged window by window under compare-and-swap (`PricingMonitor`).
- **Progress events and departments.** Ordered appends and an acyclic tree (`Progress`,
  `Departments`).

`Base`, `Sorting` and `Sums` hold the shared vocabulary. Each repository, index and queue call is one
atomic step, because the program holds a mutex, a transaction or a script there. State that the
program updates in place is a class whose methods are proved equal to functions on values; runs are
sequences of steps on those values, so the run theorems speak about every interleaving. What those
functions compute is in turn stated without them: a call's contract names a law in columns (which
statuses, times, tokens and amounts, before and after), so a wrong table or comparison contradicts it.

Reading guide, hardest results first:

1. `Service.JobService.ClaimReady`: one scheduler call claims exactly min(limit, ready) jobs whatever
   the index contains, and every service call keeps store and index in agreement (`Valid`);
   `DeliveryWorker.Dispatcher.Rebuild` restores that agreement after losses.
2. `RedisIndex.RunRefines`, `RedisIndex.CountRefines`: the Redis index refines the in-memory one.
3. `FairQuery.PruningLossless`, `JobRuns.ReachablePruning`: pruning by principal changes no pick.
4. `Deliveries.NoDedupeConflict`, `Deliveries.OneEntryPerClaim`, `Deliveries.StaleForever`,
   `Envelopes.RejectedForever`: store, queue, schedulers, rebuilders and workers interleaved.
5. `FairQueue.RankInOrder`, `FairQueue.ApplicationFairness`, `FairQueue.RankExtensional`.
6. `JobRuns.Reachable`, `JobEffects.ReachableOutcome`, `JobSteps.ClaimBatch`: histories are connected
   paths, operations show their outcome, a claim batch never aborts.
7. `DeliveryQueue.RefusedForever`, `DeliveryQueue.HeldUntilExpiry`, `DeliveryQueue.FinishedNeverReceived`.
8. `BillingEffects.SpendingWithinBudget`, `BillingEffects.CommittedKept`, `BillingHolds.OverrunExactly`,
   `BillingHolds.SettledExactly`.
9. `PricingMonitor.StatusExactly`, `Promptness.BackoffKept`, `Admission.QueueBounded`,
   `Departments.RelinkExactly`, `Progress.StoredExactly`.

Where the code does less than its own description suggests, the model follows the code and states the
exact condition:

- The generic job transition also accepts queued to dispatching, without a lease. `JobRuns.MoveLeases`
  shows that this request is exactly what breaks the lease law, and `Service.JobService.TransitionJob`
  that it is exactly what breaks the agreement with the index.
- The Redis count of an application adds the jobs of a principal whose joined key happens to equal the
  application identifier. `RedisIndex.CountRefines` gives the exact condition, `RedisIndex.CountCollision`
  one case; an identifier without NUL never meets it.
- A settled hold's amount can fall behind the ledger. `BillingHolds.SettledExactly` says exactly when,
  `BillingHolds.LateChargeUnaccounted` gives one case.
- A department update checks its parent and saves in two repository calls. `Departments.InterleavedCycle`
  shows two updates that close a cycle between them; `Departments.InterleavedExactly` says exactly when
  interleaved updates stay acyclic. Once such a cycle is saved the ancestor walk below it never returns
  (`Departments.WalkReturnsExactly`).
- The Redis index refuses an entry whose encoding exceeds 8 KiB, which the in-memory index stores.
  `RedisIndex.RegisterExactly` makes that the exact condition, `RedisIndex.OversizeParts` gives one case.

The database and the program compute a job's priority from different starting times. The results differ
only for a row eligible before it was created (`FairQuery.PriorityAgrees`); no reachable row is, so the
pruning loses nothing in any reachable state (`JobRuns.Reachable`, `JobRuns.ReachablePruning`).

## Model

| member | source | states |
|---|---|---|
| JobModel.PrincipalKeyInjective | backend/internal/controlplane/ai_job_fair_queue.go:180-188 | on NUL-free columns the joined principal key identifies the principal |
| FairQueue.LessTotal | backend/internal/controlplane/ai_job_fair_queue.go:82-132 | two candidates with different ids are ordered one way and only one way |
| FairQueue.LessTransitive | backend/internal/controlplane/ai_job_fair_queue.go:82-132 | the candidate order, statistics comparison included, is transitive |
| FairQueue.RankDistinct | backend/internal/controlplane/ai_job_fair_queue.go:57-73 | no candidate is picked twice |
| FairQueue.RankPrefix | backend/internal/controlplane/ai_job_fair_queue.go:57-73 | ranking with a smaller limit gives a prefix of ranking with a larger one |
| FairQueue.RankExtensional | backend/internal/controlplane/ai_job_fair_queue.go:32-73 | the ranking depends on the statistics only through their value at each key |
| FairQueue.ApplicationFairness | backend/internal/controlplane/ai_job_fair_queue.go:57-132 | an application that got a queued job ends with at most one more in-flight or selected job than any application with a candidate left over |
| FairQueue.PrincipalFairness | backend/internal/controlplane/ai_job_fair_queue.go:57-132 | the same bound between two principals of one application |
| FairQueue.CollectStats | backend/internal/controlplane/ai_job_fair_queue.go:40-55 | the two scans compute, for every key, the number of in-flight jobs and the latest dispatch |
| FairQueue.FindBest | backend/internal/controlplane/ai_job_fair_queue.go:59-65 | the scan finds the one candidate that precedes all others |
| FairQueue.SelectBest | backend/internal/controlplane/ai_job_fair_queue.go:55-73 | selection with swap-removal computes the set-based ranking |
| FairQueue.AgedPriority | backend/internal/controlplane/ai_job_fair_queue.go:134-153 | one priority step for every whole minute of waiting, from the priority cut to 0..9 up to 9, so after nine minutes a job is as urgent as any |
| FairQueue.RankInOrder | backend/internal/controlplane/ai_job_fair_queue.go:57-132 | every pick, given the load of the picks before it, is served before everything still waiting: by load, then by last dispatch, level by level, then by aged priority, eligibility and creation |
| FairQueue.RankFairCandidates | backend/internal/controlplane/ai_job_fair_queue.go:32-73 | the output is the ranking of the sets of candidates, jobs and activities, so input order does not matter, and it serves in order: reclaims first, then the application of least load and, at equal load, never or least recently served; the same for principals of one application; within a principal higher aged priority, then earlier eligibility, then earlier creation |
| FairQuery.PriorityAgrees | backend/internal/controlplane/ai_job_postgres_fair_queue.go:28-33 | the query's priority differs from the in-memory one if and only if the row was eligible before its creation, that head start spans another aging interval, and the top priority is not reached |
| FairQuery.PrunedRank | backend/internal/controlplane/ai_job_postgres_fair_queue.go:20-42 | keeping the first `limit` rows per principal leaves the first `limit` picks unchanged |
| FairQuery.QueryStats | backend/internal/controlplane/ai_job_postgres_fair_queue.go:58-101 | statistics from in-flight rows and per-principal maxima equal the statistics of the full scan |
| FairQuery.PruningLossless | backend/internal/controlplane/ai_job_postgres_fair_queue.go:20-101 | whenever the two priorities agree on the ready rows, ranking pruned rows with aggregated statistics gives the same picks as ranking every ready job with scanned statistics |
| FairQuery.PruningNeedsEligibility | backend/internal/controlplane/ai_job_postgres_fair_queue.go:28-33 | two rows on which the priorities differ and the pruning drops the right pick |
| JobStore.NextIsFree | backend/internal/controlplane/ai_job_repository.go:1066-1076 | in a consistent store the event and outbox keys of a job's next version are free |
| JobStore.RecordedConsistent | backend/internal/controlplane/ai_job_repository.go:1078-1186 | recording a change keeps histories connected, operations projected and outbox rows in step with events |
| JobSteps.TransitionFollows | backend/internal/controlplane/ai_job_repository.go:1078-1103 | a prepared transition raises the version by one, starts at the stored status and keeps the fence |
| JobSteps.NoCollision | backend/internal/controlplane/ai_job_repository.go:415-442 | no prepared change of a consistent store fails on an event, outbox row or missing operation |
| JobSteps.ClaimBatch | backend/internal/controlplane/ai_job_repository.go:313-342 | a claim batch over ready jobs never aborts, changes exactly the picked jobs and keeps the store consistent |
| JobSteps.StepConsistent | backend/internal/controlplane/ai_job_repository.go:25-476 | create, claim, extend, transition, requeue and cancel each keep the store invariant |
| JobRuns.Reachable | backend/internal/controlplane/ai_job_model.go:110-132 | in every reachable state a job's events are versions 1..n of a connected path of allowed transitions or reassignments ending at its status, and its operation status is the projection of that path |
| JobRuns.RunAdvances | backend/internal/controlplane/ai_job_repository.go:313-476 | over any run fences and versions never fall, and within a version a lease only grows, never appears and never revives |
| JobRuns.ReachablePruning | backend/internal/controlplane/ai_job_repository.go:753-783 | in every reachable state the pruned database ranking picks what the full ranking picks |
| JobRuns.MoveLeases | backend/internal/controlplane/ai_job_repository.go:415-442 | the generic transition keeps the lease law if and only if it is not asked to dispatch a queued job |
| JobRuns.RunLeases | backend/internal/controlplane/ai_job_repository.go:1078-1120 | when dispatch is entered only by claims, exactly the dispatched jobs hold a lease, a token and a positive fence |
| JobRuns.FinishedForever | backend/internal/controlplane/ai_job_model.go:110-132 | over any run a finished job is never claimed, requeued or canceled again: it keeps its fence, changes only to expired, and then never |
| JobEffects.MoveEffect | backend/internal/controlplane/ai_job_model.go:110-157 | a transition succeeds exactly for the holder of version and fence and the 22 listed moves, and writes exactly the listed columns, event and outbox row |
| JobEffects.RequeueEffect | backend/internal/controlplane/ai_job_repository.go:444-476 | a requeue succeeds exactly for the holder of version and fence and from a status that may return to the queue (unknown only when it is proven that nothing was created), and makes the job eligible at the later of the two times |
| JobEffects.CancelEffect | backend/internal/controlplane/ai_job_repository.go:155-251 | a cancellation succeeds exactly on accepted, queued, dispatching and running jobs, and raises the fence of a dispatching one |
| JobEffects.ChangeRecordedOnce | backend/internal/controlplane/ai_job_repository.go:1122-1186 | a change adds one event and one outbox row, starts or finishes its operation once with the right status, error and time, and touches no other record |
| JobEffects.PathShows | backend/internal/controlplane/ai_job_repository.go:1156-1186 | along any path of events the operation shows what the last statuses say: accepted until dispatched, running, then the outcome, which expiry keeps |
| JobEffects.ReachableOutcome | backend/internal/controlplane/ai_job_repository.go:1156-1186 | in every reachable store a succeeded, failed or canceled job has a succeeded, failed or canceled operation, a dispatched or running one a running operation, a never dispatched one an accepted operation, and an expired job the outcome before it |
| Promptness.ReadyExactly | backend/internal/controlplane/ai_job_fair_queue.go:159-169 | a job can be claimed exactly when queued, eligible and not under a live lease, or dispatched under a lease that is over |
| Promptness.ClaimRecords | backend/internal/controlplane/ai_job_repository.go:1105-1154 | each claim of a batch leaves one event and outbox row, scheduled or lease reassigned, at the time of the claim, and no earlier record is lost |
| Promptness.BackoffKept | backend/internal/controlplane/ai_job_fair_queue.go:159-169 | in any run a job that waits until a time is claimed by no step before that time |
| Promptness.RequeueBacksOff | backend/internal/controlplane/ai_job_repository.go:444-476 | after a requeue no run whose clock is below the later of the two times claims the job |
| Admission.CountQueue | backend/internal/controlplane/ai_job_admission.go:51-67 | the scan counts the queued and dispatching jobs of the organisation, the application and the principal |
| Admission.OwnsExactly | backend/internal/controlplane/ai_job_repository.go:1059-1064 | a submission has an owner exactly when a stored job has its scope, credential, operation and nonblank key |
| Admission.RoomExactly | backend/internal/controlplane/ai_job_admission.go:34-67 | the limit check passes exactly when every positive limit exceeds the number of queued and dispatching jobs of the organisation, the application and the principal |
| Admission.DecisionAdmitted | backend/internal/controlplane/ai_job_repository.go:25-92 | whatever the repository decides to create is within the limits and new to its idempotency scope |
| Admission.QueueBounded | backend/internal/controlplane/ai_job_admission.go:34-67 | over any run of calls, submissions decided by the repository included, a limited scope never holds more than its bound plus the unknown jobs put back in the queue |
| Admission.QueueBoundedFromEmpty | backend/internal/controlplane/ai_job_admission.go:34-67 | from an empty store that bound is the limit itself |
| Admission.IdempotencyUnique | backend/internal/controlplane/ai_job_repository.go:1059-1064 | over any run of calls an idempotency scope owns at most one job |
| Admission.ReplayUnique | backend/internal/controlplane/ai_job_repository.go:38-42 | the job a submission replays is the only one of its scope |
| Repository.ClaimSummary | backend/internal/controlplane/ai_job_repository.go:253-342 | a ranked claim takes min(limit, pool) jobs of the pool without error |
| Repository.PromptClaim | backend/internal/controlplane/ai_job_repository.go:253-342 | a claim takes nothing too early, writes exactly the claim columns, and below the limit leaves nothing claimable behind |
| Repository.LawfulClaim | backend/internal/controlplane/ai_job_repository.go:313-342 | a claim stores exactly the claimed jobs, records each once and keeps every other job and record |
| Repository.ClaimServes | backend/internal/controlplane/ai_job_fair_queue.go:57-132 | a claim serves its pool in order, whatever table holds the statistics of the store |
| Repository.MemoryRepository.Commit | backend/internal/controlplane/ai_job_repository.go:427-441 | a prepared change is recorded in all four maps, or nothing changes and the first failing guard is reported |
| Repository.MemoryRepository.TransitionJob | backend/internal/controlplane/ai_job_repository.go:415-442 | happens exactly when version and fence are held and the move is one of the listed ones; then job columns, event, outbox row and operation are exactly the listed ones, else nothing changes |
| Repository.MemoryRepository.RequeueJob | backend/internal/controlplane/ai_job_repository.go:444-476 | the move to queued, eligible at the later of the two times, exactly when held and allowed; columns, event, outbox row and operation stated, else nothing changes |
| Repository.MemoryRepository.RequestCancellation | backend/internal/controlplane/ai_job_repository.go:155-251 | cancels a queued job, sets a dispatched or running one to canceling and fences off the dispatched one, answers repeats unchanged and refuses finished and unknown jobs; columns, event, outbox row and operation stated |
| Repository.MemoryRepository.ExtendQueueLease | backend/internal/controlplane/ai_job_repository.go:393-413 | extends exactly the live lease named by version, fence and token, never shortens it and changes no other column |
| Repository.MemoryRepository.ClaimCandidates | backend/internal/controlplane/ai_job_repository.go:313-342 | the claim loop records each candidate in order and stops at the first error |
| Repository.MemoryRepository.ClaimQueued | backend/internal/controlplane/ai_job_repository.go:253-278 | claims the fair ranking of all claimable jobs, without error: nothing before its eligibility time or under a live lease; each claim writes exactly its columns, event and outbox row; below the limit everything claimable was claimed |
| Repository.MemoryRepository.ClaimByReferences | backend/internal/controlplane/ai_job_repository.go:280-311 | the same for the jobs at a referenced version |
| Repository.MemoryRepository.CreateDurableJob | backend/internal/controlplane/ai_job_repository.go:25-92 | replays exactly the earlier job of the same scope, credential, operation and key; otherwise admits exactly when every positive limit exceeds its count of queued and dispatching jobs, all identifiers are new and the budget holds; a replay or refusal changes nothing |
| RoundRobin.AllLength | backend/internal/controlplane/ai_job_ready_index.go:238-284 | full interleaving contains every element of every group |
| RoundRobin.UptoContents | backend/internal/controlplane/ai_job_ready_index.go:267-282 | an element is in the output exactly when it is among the first of its group that the round allows |
| RoundRobin.UptoDistinct | backend/internal/controlplane/ai_job_ready_index.go:267-282 | from groups without a common element nothing is drawn twice |
| RoundRobin.UptoShare | backend/internal/controlplane/ai_job_ready_index.go:267-282 | each group contributes, in its own order, exactly a prefix of itself |
| RoundRobin.UptoOrdered | backend/internal/controlplane/ai_job_ready_index.go:267-282 | of two drawn elements the first stood further ahead in its group, or as far ahead in an earlier group |
| RoundRobin.UptoFair | backend/internal/controlplane/ai_job_ready_index.go:267-282 | the draw is distinct, takes a prefix of each group, and a group with elements left over got at most one fewer than any other |
| RoundRobin.Interleave | backend/internal/controlplane/ai_job_ready_index.go:238-284 | the loop returns min(limit, total) elements, a prefix of the full interleaving and a fair draw from the groups |
| ReadyIndex.GroupingUnique | backend/internal/controlplane/ai_job_ready_index.go:211-266 | a set of entries has only one sorted grouping by principal, so map order does not matter |
| ReadyIndex.GroupingTotal | backend/internal/controlplane/ai_job_ready_index.go:211-266 | the groups hold each ready entry exactly once |
| ReadyIndex.GroupingApart | backend/internal/controlplane/ai_job_ready_index.go:211-266 | the groups of the ready entries have no entry in common and none twice |
| ReadyIndex.DrawnInOrder | backend/internal/controlplane/ai_job_ready_index.go:211-284 | of one principal the entry ready earlier comes first, then the higher priority, the earlier creation, the smaller id, and nothing more urgent is left behind; principals come in the order of their earliest entry, and one that gets nothing has none earlier |
| ReadyIndex.MemoryReadyIndex.Register | backend/internal/controlplane/ai_job_ready_index.go:176-192 | stores an entry that is new, newer or the same; a newer version supersedes it, a different entry of its version conflicts, and an entry with a missing column is invalid |
| ReadyIndex.MemoryReadyIndex.Remove | backend/internal/controlplane/ai_job_ready_index.go:194-204 | removes exactly the entry of the referenced version |
| ReadyIndex.MemoryReadyIndex.Count | backend/internal/controlplane/ai_job_ready_index.go:222-236 | counts the entries of the scope |
| ReadyIndex.MemoryReadyIndex.Candidates | backend/internal/controlplane/ai_job_ready_index.go:206-220 | returns min(limit, ready) ready entries of pairwise different jobs, a fair draw from the one grouping of the ready entries, in serving order within and between principals |
| RedisIndex.RegisterRefines | backend/internal/controlplane/ai_job_ready_redis.go:148-194 | the register script has the outcome of the in-memory index and keeps every set an exact image of the entries |
| RedisIndex.RegisterExactly | backend/internal/controlplane/ai_job_ready_redis.go:50-74 | for any size of encodings, registering a valid entry has the outcome and image of the in-memory index if and only if the encoding fits 8 KiB |
| RedisIndex.RemoveRefines | backend/internal/controlplane/ai_job_ready_redis.go:196-235 | the remove script does the same for removals |
| RedisIndex.RunRefines | backend/internal/controlplane/ai_job_ready_redis.go:50-277 | after any run of register, remove and candidate calls the hashes, the all set, the scope sets and the principal heads mirror the in-memory index given the same calls without the oversize registrations |
| RedisIndex.FittingRunRefines | backend/internal/controlplane/ai_job_ready_redis.go:50-277 | when every registration fits, both indexes hold the same entries after any run |
| RedisIndex.OversizeParts | backend/internal/controlplane/ai_job_ready_redis.go:59-61 | one oversize entry that the in-memory index stores and the Redis index refuses |
| RedisIndex.ReadIdle | backend/internal/controlplane/ai_job_ready_redis.go:94-277 | on a mirroring keyspace a candidate call finds nothing dangling or unreadable, and its clean-up and head refreshes change nothing |
| RedisIndex.CountRefines | backend/internal/controlplane/ai_job_ready_redis.go:128-146 | the set cardinality equals the in-memory count if and only if no principal key equals the queried application |
| RedisIndex.CountCollision | backend/internal/controlplane/ai_job_ready_redis.go:128-146 | one reachable keyspace where the count of an identifier with a NUL includes a foreign job |
| RedisIndex.NulFreeNeverCollides | backend/internal/controlplane/ai_job_ready_redis.go:143-146 | an application identifier without NUL never collides with a principal key |
| RedisIndex.FetchedEnough | backend/internal/controlplane/ai_job_ready_redis.go:241-245 | the principals and members read fill the limit or are all that is ready |
| RedisIndex.FetchedApart | backend/internal/controlplane/ai_job_ready_redis.go:241-245 | the groups read have no job in common and none twice |
| RedisIndex.DrawFairToAll | backend/internal/controlplane/ai_job_ready_redis.go:237-277 | a principal with a ready job left over, whether read in full, cut at the limit or not read at all, got at most one fewer than any other |
| RedisIndex.DrawnAscending | backend/internal/controlplane/ai_job_ready_redis.go:237-277 | of one principal the earlier ready entries come first, and none left behind, read or not, is earlier |
| RedisIndex.RangeByScore | backend/internal/controlplane/ai_job_ready_redis.go:241-245 | the first members up to a score, in score order, at most limit of them |
| RedisIndex.RedisReadyIndex.Head | backend/internal/controlplane/ai_job_ready_redis.go:269-274 | the minimum score of a set, or none when it is empty |
| RedisIndex.RedisReadyIndex.RunRegister | backend/internal/controlplane/ai_job_ready_redis.go:148-194 | the script's statements, one by one, compute the register step on the keyspace |
| RedisIndex.RedisReadyIndex.Register | backend/internal/controlplane/ai_job_ready_redis.go:50-74 | validates, refuses what is too long, runs the script and reports a conflict; the in-memory outcome and image exactly when the entry fits |
| RedisIndex.RedisReadyIndex.Remove | backend/internal/controlplane/ai_job_ready_redis.go:76-92 | validates the reference and runs the remove script |
| RedisIndex.RedisReadyIndex.Count | backend/internal/controlplane/ai_job_ready_redis.go:128-137 | the cardinality of the all set or of the scope's set |
| RedisIndex.RedisReadyIndex.FetchGroups | backend/internal/controlplane/ai_job_ready_redis.go:241-245 | reads principals with the earliest heads, ties in any order, and the earliest ready members of each |
| RedisIndex.RedisReadyIndex.KeepReadable | backend/internal/controlplane/ai_job_ready_redis.go:105-125 | keeps the readable entries in order and takes the others out whatever their version |
| RedisIndex.RedisReadyIndex.Candidates | backend/internal/controlplane/ai_job_ready_redis.go:94-277 | on any keyspace cleans up exactly what it met dangling or unreadable; on a mirroring one returns min(limit, ready) ready entries of pairwise different jobs, fair to every principal and earliest first within each, and changes nothing |
| Agreement.RegisterAgrees | backend/internal/controlplane/ai_job_service.go:270-279 | registering a stored job covers it and disturbs no other entry |
| Agreement.IndexedWhenDue | backend/internal/controlplane/ai_job_ready_index.go:70-118 | the entry of a covered job carries its columns and is ready exactly from the time on at which the job can be claimed |
| Agreement.ChangeAgrees | backend/internal/controlplane/ai_job_service.go:240-268 | a store change that raises the version of what it touches leaves old entries merely behind |
| Agreement.ExtendAgrees | backend/internal/controlplane/ai_job_service.go:218-238 | a lease extension keeps the version, so the old entry must be removed before the new one is stored |
| Agreement.NeverAhead | backend/internal/controlplane/ai_job_ready_index.go:70-204 | however index calls are lost, delayed or reordered, no entry is ever at a version above its job's |
| Claiming.FirstPass | backend/internal/controlplane/ai_job_service.go:170-186 | a pass claims distinct ready jobs, and what it claimed is no longer ready |
| Claiming.TwoPassExact | backend/internal/controlplane/ai_job_service.go:166-194 | the hinted pass and the fallback together claim exactly min(limit, ready) jobs, none twice |
| Claiming.ExactIsPrompt | backend/internal/controlplane/ai_job_service.go:166-194 | such a claim takes nothing too early and below the limit leaves nothing claimable behind |
| Healing.ClaimedHinted | backend/internal/controlplane/ai_job_repository.go:280-311 | a claim by hints takes only jobs some hint names at their version, and min(limit, referenced ready rows) of them |
| Healing.HintedRows | backend/internal/controlplane/ai_job_repository.go:280-311 | hints about different jobs refer to exactly the claimable rows they name at their version |
| Healing.HealedAtEnd | backend/internal/controlplane/ai_job_service.go:155-206 | hints put right before the fallback pass are right after it |
| Healing.LeaselessUncovered | backend/internal/controlplane/ai_job_service.go:240-286 | a job dispatched without a lease cannot be indexed, so the index no longer covers it |
| Service.JobService.Reconcile | backend/internal/controlplane/ai_job_service.go:288-311 | for any hints, an entry that afterwards still equals one of them describes a stored queued or dispatching job at its version and ready time; agreement is kept |
| Service.JobService.HintedPass | backend/internal/controlplane/ai_job_service.go:170-186 | claims exactly min(limit, referenced ready rows) jobs, which for hints about different jobs are the claimable ones named at their version; a blank worker claims nothing, and the hints are put right in every case |
| Service.JobService.ScanPass | backend/internal/controlplane/ai_job_service.go:188-194 | completes the hinted pass to exactly min(limit, ready) jobs |
| Service.CandidateLimit | backend/internal/controlplane/ai_job_service.go:208-216 | sixteen candidates per wanted job, at most 1024 |
| Service.JobService.ClaimReady | backend/internal/controlplane/ai_job_service.go:155-206 | for any index contents, and when candidate reads or all index calls fail, claims exactly min(limit, ready) distinct jobs, none before its eligibility time or under a live lease, each with exactly the claim columns, and changes no other job; agreement is kept when registrations work, else exactly the claimed jobs are left to register; the hints read are put right, for a blank worker too |
| Service.JobService.ExtendLease | backend/internal/controlplane/ai_job_service.go:218-238 | extends through the repository and re-indexes at the same version; store and index stay in agreement |
| Service.JobService.TransitionJob | backend/internal/controlplane/ai_job_service.go:240-251 | transition, then no entry of the old version is left and the new state is registered; a call that dispatches a queued job, and no other, leaves a job the index does not cover; errors and conflicts reported exactly |
| Service.JobService.RequeueJob | backend/internal/controlplane/ai_job_service.go:253-268 | the same for a requeue with a non-negative delay |
| Service.JobService.CancelJob | backend/internal/controlplane/ai_job_service.go:138-145 | the owner's cancellation leaves no entry from the old version on, the administrator's leaves the index alone and reports an unknown job; agreement is kept by both |
| Service.JobService.BeginJob | backend/internal/controlplane/ai_job_service.go:12-78 | the store changes exactly as the repository's decision on the submission says; a new or replayed job ends registered and agreement is kept |
| Envelopes.MatchesExactly | backend/internal/controlplane/ai_job_delivery_worker.go:245-252 | among valid envelopes of a job exactly the one built from its live claim passes the worker's check |
| Envelopes.OneMatch | backend/internal/controlplane/ai_job_delivery_worker.go:245-252 | at any instant at most one valid envelope per job passes |
| Envelopes.RejectedForever | backend/internal/controlplane/ai_job_delivery_worker.go:245-252 | an envelope not from the job's future that is rejected once is rejected after every run |
| DeliveryQueue.PublishOutcome | backend/internal/controlplane/ai_job_delivery_queue.go:163-204 | publishing conflicts exactly when the key belongs to another envelope or the envelope to another key; success leaves the envelope stored, and an existing entry untouched |
| DeliveryQueue.StepValid | backend/internal/controlplane/ai_job_delivery_queue.go:163-410 | every call keeps keys, sequence numbers and lease tokens unique and in step with entry statuses |
| DeliveryQueue.RunProgresses | backend/internal/controlplane/ai_job_delivery_queue.go:163-410 | over any run a published envelope stays in one status, and acked or dead entries never change |
| DeliveryQueue.RefusedForever | backend/internal/controlplane/ai_job_delivery_queue.go:283-391 | a drawn handle that is refused once is refused after every run |
| DeliveryQueue.OneHandle | backend/internal/controlplane/ai_job_delivery_queue.go:361-373 | an entry obeys one token and a token acts on one entry |
| DeliveryQueue.HeldUntilExpiry | backend/internal/controlplane/ai_job_delivery_queue.go:206-391 | until its lease ends only the holder of the handle moves a delivered entry |
| DeliveryQueue.PublishLawHolds | backend/internal/controlplane/ai_job_delivery_queue.go:163-204 | a publication adds exactly one pending entry with the next sequence number, or changes nothing |
| DeliveryQueue.ReceiveLawHolds | backend/internal/controlplane/ai_job_delivery_queue.go:206-248 | a receive hands out distinct due entries, none left over that is available earlier, and leases exactly those |
| DeliveryQueue.FinishedNeverReceived | backend/internal/controlplane/ai_job_delivery_queue.go:206-391 | in any run no receive hands out an entry that was acknowledged or buried |
| DeliveryQueue.WaitingNotReceived | backend/internal/controlplane/ai_job_delivery_queue.go:206-391 | in any run no receive hands out a rejected entry before its retry time |
| DeliveryQueue.MemoryDeliveryQueue.PublishEnvelope | backend/internal/controlplane/ai_job_delivery_queue.go:163-204 | stores the envelope pending under its key, available from the given time, accepts a repeat, or reports the conflict without change |
| DeliveryQueue.MemoryDeliveryQueue.ReclaimExpired | backend/internal/controlplane/ai_job_delivery_queue.go:375-391 | the loop returns exactly the expired deliveries to pending |
| DeliveryQueue.MemoryDeliveryQueue.ReadyEntries | backend/internal/controlplane/ai_job_delivery_queue.go:393-410 | the least min(limit, ready) entries by availability and sequence, in that order |
| DeliveryQueue.MemoryDeliveryQueue.Receive | backend/internal/controlplane/ai_job_delivery_queue.go:206-248 | returns expired deliveries to the queue, then hands out exactly the min(limit, due) entries available earliest, ties by sequence, each leased to the consumer under a fresh token; every other entry stays |
| DeliveryQueue.MemoryDeliveryQueue.ExtendLease | backend/internal/controlplane/ai_job_delivery_queue.go:283-298 | sets the lease end of exactly a live handle's entry, to a future time only |
| DeliveryQueue.MemoryDeliveryQueue.ValidateLease | backend/internal/controlplane/ai_job_delivery_queue.go:361-373 | not found, conflict, expired, or accepted |
| DeliveryQueue.MemoryDeliveryQueue.Acknowledge | backend/internal/controlplane/ai_job_delivery_queue.go:300-316 | a live handle makes exactly its entry acked and without lease; otherwise the reason and no change |
| DeliveryQueue.MemoryDeliveryQueue.Reject | backend/internal/controlplane/ai_job_delivery_queue.go:318-340 | a live handle returns exactly its entry to pending, available from the later of retry time and now, with the reason; otherwise no change |
| DeliveryQueue.MemoryDeliveryQueue.Bury | backend/internal/controlplane/ai_job_delivery_queue.go:342-359 | a live handle makes exactly its entry dead, with the reason; otherwise no change |
| Deliveries.GrowsKnown | backend/internal/controlplane/ai_job_delivery_queue.go:43-89 | two claims of a job with the same version or the same fence have the same envelope |
| Deliveries.PublishSucceeds | backend/internal/controlplane/ai_job_delivery_worker.go:121-127 | publishing a claim read at any earlier time succeeds, and leaves the queue alone when the claim has an entry |
| Deliveries.OneEntryPerClaim | backend/internal/controlplane/ai_job_delivery_queue.go:163-204 | each claim has at most one queue entry |
| Deliveries.PlantReachable | backend/internal/controlplane/ai_job_delivery_worker.go:41-127 | every interleaving of store, publication and queue steps keeps every queued envelope the envelope of a claim |
| Deliveries.NoDedupeConflict | backend/internal/controlplane/ai_job_delivery_worker.go:41-127 | from an empty system, in any interleaving, no publication reports a conflict |
| Deliveries.PlantProgresses | backend/internal/controlplane/ai_job_delivery_worker.go:62-119 | no interleaving, rebuilds included, changes an acked or dead entry or the envelope of any entry |
| Deliveries.QueuedNotAhead | backend/internal/controlplane/ai_job_delivery_worker.go:188-205 | a queued envelope is never ahead of its job |
| Deliveries.StaleForever | backend/internal/controlplane/ai_job_delivery_worker.go:188-252 | once the check rejects an envelope no interleaving makes it acceptable again |
| DeliveryWorker.Dispatcher.PublishDelivery | backend/internal/controlplane/ai_job_delivery_worker.go:121-127 | never fails for a stored claim; a new entry names the claim, is pending and available at once, and all other entries stay |
| DeliveryWorker.Dispatcher.RunScheduler | backend/internal/controlplane/ai_job_delivery_worker.go:41-60 | claims min(limit, ready) jobs and publishes every one of them under an entry that names its claim; the report has no errors |
| DeliveryWorker.Dispatcher.ListRows | backend/internal/controlplane/ai_job_repository.go:344-391 | the first rows of a filtered job list in its order |
| DeliveryWorker.Dispatcher.SendActive | backend/internal/controlplane/ai_job_delivery_worker.go:73-87 | publishes the live claims updated longest ago, up to the limit, without error, and changes no existing entry |
| DeliveryWorker.Dispatcher.Reindex | backend/internal/controlplane/ai_job_delivery_worker.go:94-107 | registering listed jobs succeeds for every one, and each is covered afterwards; when the index fails each counts as an error |
| DeliveryWorker.Dispatcher.RebuildIndex | backend/internal/controlplane/ai_job_delivery_worker.go:88-109 | registers the queued and leased jobs claimable soonest, up to the limit; when the list is not cut, every lost registration is made up for and the index is in full agreement |
| DeliveryWorker.Dispatcher.Rebuild | backend/internal/controlplane/ai_job_delivery_worker.go:66-119 | exact report counts for every index condition; it fails if and only if a registration failed or the scheduler did, and says which; every live claim within the limit has an entry that names it, and no existing entry changes |
| BillingHolds.ExposureChange | backend/internal/controlplane/billing_hold_repository.go:179-218 | every change of an account's exposure is the posted charge minus the reservation given up |
| BillingHolds.AdmitExposure | backend/internal/controlplane/billing_hold_repository.go:179-218 | an admission adds its reservation to its own account and month only, and stays within the budget |
| BillingHolds.OverrunExactly | backend/internal/controlplane/billing_hold_repository.go:484-502 | a settlement raises the exposure if and only if its charge exceeds what its own open hold reserves in that month |
| BillingHolds.BudgetKept | backend/internal/controlplane/billing_hold_repository.go:179-218 | over any interleaving charges plus open reservations exceed the budget by at most the uncovered parts of the charges |
| BillingHolds.BudgetNeverExceeded | backend/internal/controlplane/billing_hold_repository.go:179-218 | when every charge is covered by its reservation the budget is never exceeded |
| BillingHolds.HoldsAbsorbed | backend/internal/controlplane/billing_hold.go:278-311 | settled and released holds never change, and no hold changes reservation, account or period |
| BillingHolds.RequestsUnique | backend/internal/controlplane/billing_hold_repository.go:58-64 | over any run an idempotency scope owns at most one operation |
| BillingHolds.SettledExactly | backend/internal/controlplane/billing_hold_repository.go:484-518 | a settlement keeps settled amounts equal to posted costs if and only if it is neither late nor an unpriced close over posted costs |
| BillingHolds.MovedExactly | backend/internal/controlplane/billing_hold_repository.go:382-401 | a direct move keeps settled amounts equal to posted costs if and only if it does not settle at another amount |
| BillingHolds.LateChargeUnaccounted | backend/internal/controlplane/billing_hold_repository.go:484-491 | a run from the empty book in which a charge after settlement leaves the settled amount behind |
| BillingHolds.SettledMatchesLedger | backend/internal/controlplane/billing_hold_repository.go:484-518 | over any run settled amounts equal posted costs at all times if and only if no step is late, closes posted costs as unpriced, or misstates an amount |
| BillingEffects.TransitionLawHolds | backend/internal/controlplane/billing_hold.go:278-311 | a direct move succeeds exactly for the current version and the eight listed moves, and writes exactly the listed columns of that hold |
| BillingEffects.ReleaseLawHolds | backend/internal/controlplane/billing_hold_repository.go:471-482 | a release takes exactly a reserved or disputed hold |
| BillingEffects.ExposureIs | backend/internal/controlplane/billing_hold_repository.go:179-218 | exposure is the usage charges of the account and month plus the reservations that are neither settled nor released |
| BillingEffects.SpendingWithinBudget | backend/internal/controlplane/billing_hold_repository.go:179-218 | from an empty book, when no charge exceeds its reservation, charges plus outstanding reservations never exceed the budget |
| BillingEffects.AdmitExactly | backend/internal/controlplane/billing_hold_repository.go:51-100 | an admission is created exactly when well-formed, no repeat, new in all identifiers and affordable |
| BillingEffects.SettlementLawHolds | backend/internal/controlplane/operation_repository.go:356-474 | a usage record is applied exactly when record and charge are new and in range; the hold is then settled at the posted total, settled at zero, disputed or left alone as stated in columns, and every other hold stays |
| BillingEffects.CommittedKept | backend/internal/controlplane/billing_hold.go:278-289 | in any run a committed hold stays exactly as it is until its operation is settled or disputed |
| BillingRepository.BillingBook.FindHold | backend/internal/controlplane/billing_hold_repository.go:328-335 | the scan finds the operation's one hold |
| BillingRepository.BillingBook.FindRepeat | backend/internal/controlplane/billing_hold_repository.go:58-64 | finds the operation of a repeated request, if there is one |
| BillingRepository.BillingBook.ChargeTotal | backend/internal/controlplane/billing_hold_repository.go:188-198 | adds the account's applied usage charges of the month |
| BillingRepository.BillingBook.ReservedTotal | backend/internal/controlplane/billing_hold_repository.go:208-213 | adds the account's reserved, committed and disputed reservations of the month |
| BillingRepository.BillingBook.EnforceBudget | backend/internal/controlplane/billing_hold_repository.go:179-218 | refuses exactly when a positive budget would be exceeded |
| BillingRepository.BillingBook.CreateWithHold | backend/internal/controlplane/billing_hold_repository.go:51-100 | created exactly when well-formed, no repeat, new and within the budget; a repeat is answered with the earlier operation; each refusal has its reason; a repeat or refusal changes nothing |
| BillingRepository.BillingBook.TransitionHold | backend/internal/controlplane/billing_hold_repository.go:382-401 | compare-and-swap of exactly one hold along the eight listed moves, columns stated; anything else changes nothing |
| BillingRepository.BillingBook.MoveHold | backend/internal/controlplane/billing_hold.go:329-346 | commit, dispute or release by operation; a hold already past that point is left alone, a forbidden move is reported, and no conflict arises alone |
| BillingRepository.BillingBook.ReleaseForOperation | backend/internal/controlplane/billing_hold_repository.go:471-482 | releases a reserved or disputed hold and never fails |
| BillingRepository.BillingBook.CumulativeAmount | backend/internal/controlplane/billing_hold_repository.go:504-518 | the operation's posted cost plus the new charge, refused exactly beyond the 64-bit range |
| BillingRepository.BillingBook.ApplySettlement | backend/internal/controlplane/operation_repository.go:356-474 | settles or disputes the hold, posts the charge and keeps the record together; a replay with or without a charge, a conflict or any refusal changes nothing |
| BillingRepository.ResolveNeverFails | backend/internal/controlplane/operation_repository.go:428-463 | no hold update of a settlement fails half way |
| PricingMonitor.JudgedFaithful | backend/internal/controlplane/effective_pricing_monitor.go:115-156 | after a judged window the counters are at most the streaks of the committed windows |
| PricingMonitor.RunInvariant | backend/internal/controlplane/effective_pricing_repository.go:220-284 | every run of proposals, actions and concurrent evaluations keeps decisions faithful to the log |
| PricingMonitor.AutomaticJustified | backend/internal/controlplane/effective_pricing_monitor.go:133-156 | an automatic activation or rollback comes only after the required number of consecutive healthy or degraded windows since approval |
| PricingMonitor.JudgedStatus | backend/internal/controlplane/effective_pricing_monitor.go:115-156 | one judgement promotes, rolls back or keeps the status exactly as the counters after it say, and its evaluation records which |
| PricingMonitor.JudgesExactly | backend/internal/controlplane/effective_pricing_monitor.go:56-70 | a window is judged exactly when the decision is unchanged since it was read and the window is complete, newer than the last one and new |
| PricingMonitor.StatusExactly | backend/internal/controlplane/effective_pricing_monitor.go:115-156 | in any run under fixed counts a judged canary turns active exactly when automatic actions are on and the last windows of the log, this one included, are healthy and as many as promotion needs; it is rolled back exactly in the degraded counterpart; else the status stays; the log names the same action |
| PricingMonitor.ActedExactly | backend/internal/controlplane/effective_pricing_decision.go:157-226 | which operator action is accepted in which status, and exactly what it writes |
| PricingMonitor.WindowsStrictlyIncrease | backend/internal/controlplane/effective_pricing_monitor.go:57-63 | window ends of a decision strictly increase after its approval, so none is counted twice |
| PricingMonitor.PricingBoard.UpdateDecision | backend/internal/controlplane/effective_pricing_repository.go:220-231 | replaces the decision if status and time are as expected |
| PricingMonitor.PricingBoard.CommitEvaluation | backend/internal/controlplane/effective_pricing_repository.go:255-284 | appends evaluation and decision together if the decision is as expected and the window is new |
| PricingMonitor.PricingBoard.EvaluateWindow | backend/internal/controlplane/effective_pricing_monitor.go:56-183 | judges and commits exactly a timely window of an unchanged decision: one evaluation is appended and only that decision changes; otherwise nothing changes |
| PricingMonitor.PricingBoard.ActOn | backend/internal/controlplane/effective_pricing_decision.go:157-226 | applies an accepted action exactly when the decision is unchanged, sets the status that action stands for, and changes no other decision |
| Progress.ArrivalsOrdered | backend/internal/controlplane/ai_job_progress_repository.go:79-130 | for any arrival order stored sequences strictly increase and percentages never fall, attempt by attempt |
| Progress.LatestIsHighest | backend/internal/controlplane/ai_job_progress_repository.go:110-126 | comparing with the latest event that has a percentage is enough |
| Progress.RepeatChangesNothing | backend/internal/controlplane/ai_job_progress_repository.go:115-120 | a stored observation repeated at any later time changes nothing |
| Progress.LateNeverStored | backend/internal/controlplane/ai_job_progress_repository.go:121-123 | an observation older than a stored one is never stored |
| Progress.StoredExactly | backend/internal/controlplane/ai_job_progress_repository.go:79-130 | an observation is stored exactly when it belongs to the job, attempt and task and has a higher sequence and no lower percentage than everything stored of its attempt; repeats, conflicts and refusals are answered as such |
| Progress.InOrderAllStored | backend/internal/controlplane/ai_job_progress_repository.go:79-130 | observations that arrive in order are all stored |
| Progress.ProgressRepository.Scan | backend/internal/controlplane/ai_job_progress_repository.go:97-114 | one scan finds the event of the same sequence, the latest, and the latest with a percentage |
| Progress.ProgressRepository.Append | backend/internal/controlplane/ai_job_progress_repository.go:79-130 | stores exactly the observations in context that are after everything stored of their attempt; repeats, conflicts, late and falling ones are told apart and change nothing |
| Departments.AcyclicMeansNoCycle | backend/internal/controlplane/department_service.go:139-145 | every way up ends if and only if no department is its own ancestor |
| Departments.WalkReturnsExactly | backend/internal/controlplane/department_service.go:139-145 | the ancestor walk returns if and only if it does not run into a cycle |
| Departments.RelinkExactly | backend/internal/controlplane/department_service.go:120-147 | a new parent keeps the tree acyclic if and only if the department is not on the parent's way up |
| Departments.SaveExactly | backend/internal/controlplane/department_service.go:37-62 | a save keeps the tree acyclic if and only if the department is off its parent's way up at that time |
| Departments.InterleavedExactly | backend/internal/controlplane/department_service.go:37-62 | interleaved updates keep the tree acyclic at all times if and only if each save is off the way up when it lands |
| Departments.CheckStillHolds | backend/internal/controlplane/department_service.go:49-57 | the earlier check still decides the save if no department on the parent's way up was relinked in between |
| Departments.InterleavedCycle | backend/internal/controlplane/department_service.go:49-57 | two updates checked against the same tree and then both saved close a cycle, after which the ancestor walk from it never returns |
| Departments.DepartmentService.ValidateParent | backend/internal/controlplane/department_service.go:120-147 | accepts exactly the parents that exist and keep the tree acyclic; the walk ends because the remaining way up shrinks |
| Departments.DepartmentService.EnsureUniqueCode | backend/internal/controlplane/department_service.go:149-160 | accepts exactly the codes no other department has |
| Departments.DepartmentService.CreateDepartment | backend/internal/controlplane/department_service.go:15-35 | adds exactly the new department, or nothing, and keeps the tree acyclic with unique codes |
| Departments.DepartmentService.UpdateDepartment | backend/internal/controlplane/department_service.go:37-62 | relinks exactly the named department when that keeps the tree acyclic, or changes nothing |

## Left out

- Clocks are parameters: readings are natural numbers of milliseconds, zero is the unset time, and a run never reads an earlier time than before. The Redis index stores milliseconds, so both indexes are compared at that granularity.
- Digests (event, outbox, delivery and progress identifiers, scope keys) are structural values, equal only when their inputs are equal. Random identifiers are fresh values; delivery lease tokens are numbered as they are drawn.
- Identifiers are taken as already trimmed; blank means empty.
- Service.JobService.BeginJob: takes the built operation and job; request checks, model resolution, artifact checks and payload encryption are not modelled.
- Repository.MemoryRepository.CreateDurableJob: the billing verdict is an input; the budget itself is proved in BillingHolds. Encrypted payloads and JSON outbox bodies are not modelled.
- Repository.MemoryRepository.RequestCancellation: the release of the billing hold that accompanies it is BillingRepository.BillingBook.ReleaseForOperation, not part of the job store; ownership is an input.
- Operations are changed by job steps only; direct operation updates by other services are not modelled.
- Service.JobService.ClaimReady: an index either takes all registrations of a call or none; decryption of payloads after the claim is not modelled.
- PostgreSQL method bodies, row locking and transactions, except the three fair-queue queries read as functions over rows; the integer cast inside the priority expression is taken without overflow.
- RedisIndex.RangeByScore: breaks score ties by the raw member. Redis stores principals by digest, so RedisIndex.RedisReadyIndex.FetchGroups promises score order only and leaves their ties open.
- RedisIndex.RedisReadyIndex.KeepReadable: entries are structured values, so an entry that does not decode is one with the wrong identifier, an invalid field or an encoding that is too long.
- The Redis stream delivery queue, which rests on consumer-group semantics; the in-memory queue carries the contract.
- DeliveryQueue.MemoryDeliveryQueue.Receive: the waiting form, notifications and wake-up times are not modelled; a waiting call is a sequence of non-waiting ones.
- Worker processing after the envelope check (decryption, heartbeat, provider dispatch, attempt reconciliation); in the interleaved runs it appears as arbitrary store and queue steps.
- DeliveryWorker.Dispatcher.Rebuild: repository listing errors are not modelled, and the index either takes all registrations of a pass or none.
- BillingHolds.BudgetKept: amounts are mathematical integers; the exposure sum of the program has no overflow guard.
- BillingRepository.BillingBook.EnforceBudget: the monetary budget only; image, video and audio quotas are not modelled.
- BillingRepository.BillingBook.ApplySettlement: one ledger row per usage record (the program knows one purpose), told apart by its identifier, which the program derives from operation, attempt, usage version and purpose; whether the attempt is known is an input, and pricing evaluations and outbox rows are not modelled. Periods start on the first of a month, so dates are month numbers.
- PricingMonitor.AutomaticJustified: the verdict of a window is an input, so the cost comparison in floating point is not modelled; each successful update is assumed to carry a later time than the stored one, without which two updates within one clock tick could pass the compare-and-swap.
- Progress.ProgressRepository.Append: jobs and attempts are fixed maps; observation times are not stored.
- Departments.DepartmentService.UpdateDepartment: one call at a time; interleaved saves are covered by Departments.InterleavedExactly for parent links only, not for code uniqueness. Budgets, cost centres, status and audit entries are not modelled; codes are taken as already upper-cased.
- Alerts, cost reports, admin queries, artifact stores, the compatibility manifest and the user interface.
