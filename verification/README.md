# KirkForge verification models

Dafny 4.11 models of the algorithms and state machines underneath KirkForge's verification engine, with
machine-checked proofs of what they guarantee. `dafny verify dfyconfig.toml` checks everything.

## What is modelled

| files | component | main result |
|---|---|---|
| `Digraph`, `KahnOrder`, `TopologicalSort`, `StrictSort`, `LenientSort` | the two Kahn sorts of task plans | each sort outputs *the* first-in first-out order, defined without queues or in-degrees; its length decides acyclicity |
| `CycleDetection` | three-colour depth-first cycle counter | counts exactly the listed back edges of one determined search, without which no cycle is left; zero exactly on acyclic graphs; agrees with the strict sort |
| `PlanParsing`, `PlanExecution` | plan validation and the plan executor | a subtask is delegated exactly when everything upstream succeeded; a parsed plan can always be executed |
| `RateLimiter` | sliding-window limiter | the pruned storage answers like the full log, and keeps the limit, on every run exactly when the window fits the clean-up horizon |
| `Quotas` | usage counters with automatic reset | with any clock the counters are the balance of a ledger of everything recorded; exactly when that is the true usage |
| `EventLog` | HMAC-chained log: writer, recovery, verifier | exactly which writer runs are accepted and what they hold; two accepted logs with the same last line are the same log |
| `EventBus` | idempotent bus with bounded buffer and graceful drain | closed form of the idempotency cache; dispatches, buffer and drain counted on the steps under every interleaving |
| `ConcurrencyLimiter` | FIFO slot limiter | strict first come, first served; the exact release that serves a waiter |
| `Decimal`, `TenantKeys` | tenant key rotation and ciphertext format | decryption succeeds exactly while the named version is in the window |
| `Reducer`, `ReducerProperties`, `Verdict`, `CorrectionLoop` | signals, packets, decisions, verdict | packets do not depend on interleavings; over every run, exactly when the verdict is "pass", fail-closed |
| `Routing` | hashed vectors, cosine similarity, pass rates | Cauchy-Schwarz over vectors of any two lengths; grouped sums |

## How the models are built

* Loops and classes of the source are methods and classes here; a class method states its whole new state through
  a function on values (`Apply`), and the theorems about whole runs are lemmas about sequences of those steps,
  each against a reference that forgets nothing (an unpruned log, a ledger, the delivered history).
* A stretch of code between two awaits is one atomic step. The clock, what a delegation or validator returns, file
  errors, the keyed hash, the cipher, key derivation and the square root are parameters. Where a theorem needs
  something of them (no collisions among the lines at hand, decryption undoes encryption) it says so.
* JavaScript's insertion-ordered `Map` is a Dafny map with the list of its keys, or an ordered list.
* Numbers are unbounded integers or reals; the only 32-bit arithmetic, the FNV-1a hash, uses bit-vectors.
* Lemmas carry `{:induction false}`: each body is the whole proof.

Where the code and its own comments differ, the models follow the code:

* The strict sort reports "Cycle detected" also for repeated ids and unknown dependencies
  (packages/orchestrator/src/orchestrator-decompose.ts:274).
* A subtask with several failed dependencies gets several skip records
  (packages/orchestrator/src/orchestrator-decompose.ts:346-367); `RecordsCounted` counts them.
* The lenient sort promises dependencies first; that holds exactly when the known dependencies are acyclic
  (packages/orchestrator/src/decompose.ts:158-161).
* The limiter's clean-up drops whatever is older than one hour; windows longer than that are miscounted
  (packages/core-enterprise/src/quotas.ts:374-378).
* A log whose restart could not be read is continued as if it were empty, and one whose last line lost its newline is
  continued on that line; both spoil it (packages/orchestrator/src/event-log.ts:64-68,
  packages/orchestrator/src/event-log.ts:165-178). `LogAcceptedIff` has the exact condition.
* A tenant's own quota is completed from the fixed defaults, not from the manager's default quota
  (packages/core-enterprise/src/quotas.ts:91-94).
* The event log's comment takes truncation as detectable; cutting off the end is not
  (packages/orchestrator/src/event-log.ts:16-17).
* Decryption does not try all active key versions, only the one the ciphertext names
  (packages/core-secrets/src/tenant-key-provider.ts:104-131).
* The imports slot is not among the statuses that fail a packet, but it counts when required
  (packages/orchestrator/src/reducer.ts:250, packages/orchestrator/src/reducer.ts:282-296).
* Protocol integrity is the table's first precedence (packages/orchestrator/src/truth-model.ts:11), but a schema-contract
  delegation that changes and emits nothing has its enforcement replaced by one without the unterminated and truncated
  flags (packages/orchestrator/src/orchestrator-finalize.ts:107-118), so that a truncated answer can pass on the
  validator's word; `CutOffPassesIff` has the exact condition.
* The correction limit and the budget are tested before "verification passed"
  (packages/orchestrator/src/correction-loop.ts:98-127).

## Model

| member | source | states |
|---|---|---|
| `KahnOrder.EnqueuedAre` | packages/orchestrator/src/orchestrator-decompose.ts:258-272 | whatever has been removed, the queue history holds exactly the vertices whose dependencies are all removed, once each |
| `KahnOrder.KahnOrderUnique` | packages/orchestrator/src/orchestrator-decompose.ts:258-272 | vertices and arcs determine the first-in first-out order |
| `KahnOrder.KahnOrderRespects` | packages/orchestrator/src/orchestrator-decompose.ts:264-272 | in a complete run every vertex comes after everything it depends on |
| `KahnOrder.KahnCompleteIffAcyclic` | packages/orchestrator/src/orchestrator-decompose.ts:264-275 | every vertex is removed if and only if all dependencies are listed and there is no cycle |
| `KahnOrder.IndependentKeepListingOrder` | packages/orchestrator/src/orchestrator-decompose.ts:235-238 | without dependencies the order is the input order |
| `Digraph.NoSourceMeansCycle` | packages/orchestrator/src/orchestrator-decompose.ts:274 | a non-empty finite set of vertices that all wait for one another contains a cycle |
| `Digraph.OrderedHasNoCycle` | packages/orchestrator/src/orchestrator-decompose.ts:274-275 | a repetition-free listing in which every arc goes forward excludes cycles |
| `TopologicalSort.ZeroDegrees` | packages/orchestrator/src/orchestrator-decompose.ts:245-250 | the keys are the distinct ids in order of first occurrence, with nothing tallied |
| `TopologicalSort.InitialQueue` | packages/orchestrator/src/orchestrator-decompose.ts:258-261 | the initial queue is the vertices without dependencies, in insertion order |
| `TopologicalSort.Release` | packages/orchestrator/src/orchestrator-decompose.ts:267-271 | the in-degrees count what is still awaited and exactly the freed successors join the queue, in adjacency order |
| `TopologicalSort.Drain` | packages/orchestrator/src/orchestrator-decompose.ts:263-272 | the queue loop terminates and shifts out the first-in first-out order |
| `StrictSort.AddArcs` | packages/orchestrator/src/orchestrator-decompose.ts:251-256 | in-degrees and adjacency lists tally every listed dependency, repeated ones included |
| `StrictSort.Sort` | packages/orchestrator/src/orchestrator-decompose.ts:239-276 | ok exactly when ids are distinct, dependencies listed and the relation acyclic; then a permutation, dependencies first, in first-in first-out order |
| `LenientSort.AddArcs` | packages/orchestrator/src/decompose.ts:171-178 | only dependencies on listed ids are tallied |
| `LenientSort.AppendMissing` | packages/orchestrator/src/decompose.ts:196-201 | the ids not yet output follow in listing order, each by its first task |
| `LenientSort.Sort` | packages/orchestrator/src/decompose.ts:162-204 | every distinct id once, by its first task; with distinct ids a permutation; dependencies first exactly when the known ones are acyclic |
| `LenientSort.CompareSorts` | packages/orchestrator/src/decompose.ts:162-204 | on distinct ids with acyclic known dependencies both sorts give the same sequence; without dependencies, the input order |
| `CycleDetection.BuildGraph` | packages/tool-graphify/src/index.ts:211-217 | the adjacency map holds every endpoint, in the order of first mention, with its edges in order |
| `CycleDetection.Visit` | packages/tool-graphify/src/index.ts:227-233 | one neighbour: a gray one is counted, a white one is searched, a black one is left; afterwards it is finished or on the path |
| `CycleDetection.Dfs` | packages/tool-graphify/src/index.ts:225-236 | terminates; gray vertices are the call stack, black ones finished; vertices finish in the order of the depth-first search as a function; the count grows by exactly the adjacency entries of finished vertices that lead to one not finished earlier, and these close cycles |
| `CycleDetection.DetectCycles` | packages/tool-graphify/src/index.ts:210-243 | terminates and returns the number of listed edges, repeated ones included, among the back edges of the search from the endpoints in order, which close a cycle each and without which there is no cycle; so zero exactly when the graph has no cycle, self-loops included |
| `CycleDetection.DetectorsAgree` | packages/tool-graphify/src/index.ts:210-243 | on one plan the cycle counter and the strict sort give one verdict |
| `PlanParsing.NodesAre` | packages/orchestrator/src/orchestrator-decompose.ts:169-189 | each member of a node and the complexity test, defaults and cut included |
| `PlanParsing.CollectNodes` | packages/orchestrator/src/orchestrator-decompose.ts:165-190 | yields the nodes when ids are distinct and complexities known; otherwise the error of the first bad record, the id being tested first |
| `PlanParsing.CheckDependencies` | packages/orchestrator/src/orchestrator-decompose.ts:192-198 | passes only when every dependency is listed and none is the node itself; otherwise the error of the first bad node, itself being tested first |
| `PlanParsing.ParseNodes` | packages/orchestrator/src/orchestrator-decompose.ts:151-222 | accepts exactly the acceptable plans, in first-in first-out order; each error is the first thing wrong in the order of the tests; the result is again well-formed |
| `PlanParsing.PermutationWellFormed` | packages/orchestrator/src/orchestrator-decompose.ts:335-339 | sorting leaves a plan well-formed, so a stored sorted plan sorts again |
| `PlanParsing.ParseAndExecute` | packages/orchestrator/src/orchestrator-decompose.ts:335-478 | a parsed plan is always executed, and every subtask is counted as succeeded or failed |
| `PlanExecution.CheckDependencies` | packages/orchestrator/src/orchestrator-decompose.ts:346-367 | reports a missing dependency exactly when there is one; one skip record per failed dependency entry, the last one kept as the outcome |
| `PlanExecution.DelegateWithRetry` | packages/orchestrator/src/orchestrator-decompose.ts:377-429 | one retry exactly when the first attempt fails |
| `PlanExecution.RunInOrder` | packages/orchestrator/src/orchestrator-decompose.ts:345-465 | over a plan in dependency order no dependency is ever missing, and every node obeys its local rule |
| `PlanExecution.RulesGiveMeaning` | packages/orchestrator/src/orchestrator-decompose.ts:345-465 | the rules about direct dependencies amount to the statement about all upstream subtasks |
| `PlanExecution.RuleFits` | packages/orchestrator/src/orchestrator-decompose.ts:346-465 | an outcome or record, field by field: verdict, tokens or error of the attempt that counts, or no tokens and an error naming a failed direct dependency |
| `PlanExecution.Execute` | packages/orchestrator/src/orchestrator-decompose.ts:335-478 | error exactly on an empty or unsortable plan; delegated exactly when all transitive dependencies succeeded; success exactly when the node and everything upstream is good; every outcome and record field by field, in plan order; tokens are those of the attempts that count over the delegated subtasks; failed, succeeded and record counts |
| `RateLimiting.StorageAgrees` | packages/core-enterprise/src/quotas.ts:320-385 | after any run, with any clock and configurations, storage and log agree beyond every cutoff nothing was pruned past |
| `RateLimiting.ExactWhenSafe` | packages/core-enterprise/src/quotas.ts:320-358 | a check or count whose window starts no earlier than anything pruned is answered from the full log |
| `RateLimiting.PruningUnobservable` | packages/core-enterprise/src/quotas.ts:320-385 | nondecreasing clock, one configuration per key: every answer about a key whose window is at most an hour is the one the unpruned log gives, whatever the other keys' windows |
| `RateLimiting.NeverOverLimit` | packages/core-enterprise/src/quotas.ts:320-351 | no window of a key's configured length, up to an hour, ever holds more allowed requests than configured |
| `RateLimiting.LongWindowForgets` | packages/core-enterprise/src/quotas.ts:373-385 | a concrete run in which a window longer than an hour loses a request that is still inside it |
| `RateLimiting.AlwaysExactIff` | packages/core-enterprise/src/quotas.ts:373-385 | a configuration is answered from the log on every run if and only if its window is at most an hour or it allows nothing |
| `RateLimiting.LongWindowOverruns` | packages/core-enterprise/src/quotas.ts:373-385 | with a longer window a full burst, a clean-up and one more request put one request too many into the window |
| `RateLimiting.AlwaysWithinLimitIff` | packages/core-enterprise/src/quotas.ts:320-385 | the limit holds in every window of every run if and only if the window is at most an hour or nothing is allowed |
| `RateLimiting.RateLimiter.Check` | packages/core-enterprise/src/quotas.ts:320-351 | new storage and answer are those of the modelled step |
| `RateLimiting.RateLimiter.GetCurrentCount` | packages/core-enterprise/src/quotas.ts:354-358 | the count of the modelled step; nothing changes |
| `RateLimiting.RateLimiter.Reset` | packages/core-enterprise/src/quotas.ts:361-363 | the key's buckets go, nothing else |
| `RateLimiting.RateLimiter.Cleanup` | packages/core-enterprise/src/quotas.ts:369-371 | the state of the modelled step |
| `RateLimiting.RateLimiter.CleanupStaleKeys` | packages/core-enterprise/src/quotas.ts:373-385 | visiting the keys in any order leaves exactly the recent buckets of keys that have some |
| `Quotas.AutoResetBalances` | packages/core-enterprise/src/quotas.ts:259-283 | after the automatic reset the counters are the balance of the latest hour and day read |
| `Quotas.UsageIsHighWaterBalance` | packages/core-enterprise/src/quotas.ts:102-115 | on every run, with any clock: usage is the balance of the latest hour and day read, every delta dated by the latest hour and day read when it was recorded |
| `Quotas.CheckIsHighWaterBalance` | packages/core-enterprise/src/quotas.ts:118-201 | on every run, with any clock: an action is refused exactly when that balance has reached the limit in force |
| `Quotas.UsageIsBalance` | packages/core-enterprise/src/quotas.ts:102-115 | when the tenant's clock readings are aligned, usage is what was really recorded in the current hour, on the current day or since removal, from the last manual reset that applies |
| `Quotas.AlwaysTrueIffAligned` | packages/core-enterprise/src/quotas.ts:259-283 | usage is the true one whatever was recorded if and only if the readings are aligned: every record still live lies in the hour and day asked for exactly when its high-water mark is the one answered for |
| `Quotas.NeverBackIsAligned` | packages/core-enterprise/src/quotas.ts:259-283 | readings of this tenant that never fall back into an earlier hour or day are aligned |
| `Quotas.NondecreasingClockIsTrue` | packages/core-enterprise/src/quotas.ts:102-201 | with a nondecreasing clock every tenant's usage and checks follow what was really recorded |
| `Quotas.CheckIsBalance` | packages/core-enterprise/src/quotas.ts:118-201 | when the readings are aligned, an action is refused exactly when what was really recorded has reached the limit in force |
| `Quotas.StepBackShowsIff` | packages/core-enterprise/src/quotas.ts:270-281 | one record and one question: every delta is reported truly if and only if the question does not come in an earlier hour or on an earlier day |
| `Quotas.ClockBackwardsMisreports` | packages/core-enterprise/src/quotas.ts:270 | what was recorded in hour 1 is reported in hour 0 |
| `Quotas.UsageByField` | packages/core-enterprise/src/quotas.ts:102-115 | aligned usage field by field: sums over the hour of 3600000 ms, the day of 86400000 ms, or everything |
| `Quotas.RecordIsDated` | packages/core-enterprise/src/quotas.ts:204-215 | a record enters the ledger under the clock's hour and day |
| `Quotas.CheckByAction` | packages/core-enterprise/src/quotas.ts:132-200 | every action is checked against its own limit and its own counter |
| `Quotas.FilledByField` | packages/core-enterprise/src/quotas.ts:31-39 | the default of every limit |
| `Quotas.QuotaManager.AutoResetIfStale` | packages/core-enterprise/src/quotas.ts:259-283 | the state of the modelled reset |
| `Quotas.QuotaManager.GetUsage` | packages/core-enterprise/src/quotas.ts:102-115 | the state and usage of the modelled step |
| `Quotas.QuotaManager.CheckQuota` | packages/core-enterprise/src/quotas.ts:118-201 | the state and answer of the modelled step |
| `Quotas.QuotaManager.RecordUsage` | packages/core-enterprise/src/quotas.ts:204-215 | the state of the modelled step |
| `Quotas.QuotaManager.ResetHourly` | packages/core-enterprise/src/quotas.ts:218-227 | only the tenant's hourly counters are cleared |
| `Quotas.QuotaManager.ResetDaily` | packages/core-enterprise/src/quotas.ts:230-237 | only the tenant's daily counter is cleared |
| `Quotas.QuotaManager.RemoveTenant` | packages/core-enterprise/src/quotas.ts:240-245 | the tenant leaves no trace |
| `Quotas.QuotaManager.SetQuota` | packages/core-enterprise/src/quotas.ts:91-94 | the given limits, the missing ones filled in from the fixed defaults |
| `EventLog.VerifyLog` | packages/orchestrator/src/event-log.ts:128-152 | valid exactly on chained logs; otherwise the first line that breaks the chain |
| `EventLog.LastLineDeterminesLog` | packages/orchestrator/src/event-log.ts:118-152 | two accepted logs that share their last line are identical in length and in every line |
| `EventLog.TamperingDetected` | packages/orchestrator/src/event-log.ts:118-152 | any rewriting that keeps the last line is refused |
| `EventLog.CutUnnoticedIff` | packages/orchestrator/src/event-log.ts:16-17 | dropping a stretch of lines goes unnoticed if and only if it is empty or the tail |
| `EventLog.LogAcceptedIff` | packages/orchestrator/src/event-log.ts:45-190 | over every mixture of complete, refused and torn appends, closes and readable or unreadable restarts: the log is accepted, and numbered by position, if and only if the file it started from was and no append did harm, which can be seen without any hash |
| `EventLog.FreshLogAcceptedIff` | packages/orchestrator/src/event-log.ts:45-190 | a log written from scratch is accepted, with line i carrying number i, if and only if no append was torn inside its text, followed an unterminated line or came from a writer that had failed to read the log |
| `EventLog.OrderlyIsUndamaged` | packages/orchestrator/src/event-log.ts:154-190 | appends that complete or are refused, closes and readable restarts do no harm |
| `EventLog.LogHoldsEvents` | packages/orchestrator/src/event-log.ts:154-170 | behind the lines it started with, the log holds the events and times of the appends that found or opened the file and were written, in order, whenever each landed on a line of its own |
| `EventLog.UndamagedIsLegible` | packages/orchestrator/src/event-log.ts:154-170 | that covers undamaged logs, a torn newline included |
| `EventLog.UntornIsLegible` | packages/orchestrator/src/event-log.ts:154-170 | and every run without torn writes on a terminated file |
| `EventLog.OpenIff` | packages/orchestrator/src/event-log.ts:98-108 | the file is open exactly when some append opened it and everything since was written |
| `EventLog.OldLinesStay` | packages/orchestrator/src/event-log.ts:154-179 | a terminated file is only ever added to |
| `EventLog.UnreadableRestartBreaks` | packages/orchestrator/src/event-log.ts:64-68 | after a restart that cannot read a non-empty log the next line breaks the chain, unless a readable restart comes first |
| `EventLog.TornWriteBreaks` | packages/orchestrator/src/event-log.ts:165-178 | whatever is written behind a torn write breaks the chain, restart or not |
| `EventLog.EventLogger.constructor` | packages/orchestrator/src/event-log.ts:39-69 | the chain state recovered from the last line |
| `EventLog.EventLogger.Append` | packages/orchestrator/src/event-log.ts:154-179 | the file and chain state of the modelled step, for every way in which opening and writing can end |
| `EventLog.EventLogger.Close` | packages/orchestrator/src/event-log.ts:181-190 | only the descriptor is given up |
| `EventBus.AlwaysAccounted` | packages/core-events/src/index.ts:69-178 | under every interleaving: buffer within capacity, cache within size, in-flight equal to the dispatches begun and not finished, drained only when idle |
| `EventBus.ClampNeverActs` | packages/core-events/src/index.ts:120 | finishing a dispatch always lowers the in-flight count by one |
| `EventBus.DispatchesCounted` | packages/core-events/src/index.ts:102-130 | counted on the steps: in-flight is dispatches begun minus last returns, handlers are started once per dispatch and once per further return, and the waiting shutdown is the latest that found a dispatch open |
| `EventBus.DrainedMeansReturned` | packages/core-events/src/index.ts:165-178 | a drained shutdown found every dispatch with its last return |
| `EventBus.WaiterIsWoken` | packages/core-events/src/index.ts:121-123 | the waiting shutdown is woken as soon as no dispatch is open |
| `EventBus.AnswerIs` | packages/core-events/src/index.ts:69-100 | the answer to every emit: refused after a shutdown request, a notice while the buffer is full, duplicate while recalled, accepted otherwise |
| `EventBus.DrainedForever` | packages/core-events/src/index.ts:165-178 | once a graceful shutdown ended other than by timeout no handler runs and none ever starts |
| `EventBus.BufferedIsActiveOrUnhandled` | packages/core-events/src/index.ts:102-130 | every buffered event is in dispatch or never had a handler; an idle bus whose events were all handled has an empty buffer |
| `EventBus.BufferIsUnfinished` | packages/core-events/src/index.ts:96-130 | undrained and within 500 events, the buffer holds exactly the accepted events whose dispatch has not ended |
| `EventBus.CappedIs` | packages/core-events/src/index.ts:126-128 | of more than 500 events the latest 500 are kept |
| `EventBus.DuplicateIffRecalled` | packages/core-events/src/index.ts:91-98 | an event is refused as a duplicate if and only if its id is among the last N accepted and was within the TTL at the latest acceptance |
| `EventBus.NeverRedispatched` | packages/core-events/src/index.ts:91-98 | an accepted event is not accepted again while its age is at most the TTL and fewer than N events were accepted after it |
| `EventBus.Bus.TrimIdempotency` | packages/core-events/src/index.ts:136-145 | old entries go, then the oldest beyond the size |
| `EventBus.Bus.Emit` | packages/core-events/src/index.ts:69-106 | the state and answer of the modelled step |
| `EventBus.Bus.RemoveFromBuffer` | packages/core-events/src/index.ts:124-125 | the first occurrence goes, if there is one |
| `EventBus.Bus.HandlerReturned` | packages/core-events/src/index.ts:109-129 | the state of the modelled step: next handler, or the whole `finally` block |
| `EventBus.Bus.DrainBuffer` | packages/core-events/src/index.ts:132-134 | only the buffer is emptied |
| `EventBus.Bus.Shutdown` | packages/core-events/src/index.ts:160-163 | the state of the modelled step |
| `EventBus.Bus.GracefulShutdown` | packages/core-events/src/index.ts:165-175 | ends at once exactly when nothing is in flight, otherwise waits for the drain |
| `EventBus.Bus.GracefulResumed` | packages/core-events/src/index.ts:176-177 | a woken shutdown ends, drained |
| `EventBus.Bus.GracefulTimedOut` | packages/core-events/src/index.ts:176-177 | a shutdown whose time is up stops the bus without counting as drained |
| `Concurrency.FirstComeFirstServed` | packages/model-client/src/model-client.ts:121-138 | in every paired run slots held stay between 0 and the maximum, someone waits only when all are held, and grants followed by waiters are the arrivals |
| `Concurrency.GrantedByRelease` | packages/model-client/src/model-client.ts:134-138 | the waiter at position p is granted with the (p+1)-th later release and not before |
| `Concurrency.Limiter.Acquire` | packages/model-client/src/model-client.ts:121-132 | the state and grant of the modelled step |
| `Concurrency.Limiter.Release` | packages/model-client/src/model-client.ts:134-138 | the state and grant of the modelled step |
| `Decimal.ParsePrint` | packages/core-secrets/src/tenant-key-provider.ts:113 | reading a printed number gives it back |
| `TenantKeys.ParsePrinted` | packages/core-secrets/src/tenant-key-provider.ts:101-121 | printing then parsing a ciphertext recovers its version and three parts |
| `TenantKeys.ShapedIsRead` | packages/core-secrets/src/tenant-key-provider.ts:108-121 | every text of the printed shape is read |
| `TenantKeys.ReadIsShaped` | packages/core-secrets/src/tenant-key-provider.ts:108-121 | whatever is read has the printed shape |
| `TenantKeys.VersionsAreWindow` | packages/core-secrets/src/tenant-key-provider.ts:75-87 | after any run a tenant's versions are consecutive, end at the current one and number at most N, whatever other tenants do |
| `TenantKeys.DecryptIs` | packages/core-secrets/src/tenant-key-provider.ts:107-137 | after any run and for any text: the error of the first test that fails, or what the named version's own key opens |
| `TenantKeys.DecryptIffActive` | packages/core-secrets/src/tenant-key-provider.ts:95-152 | over any run, clears included, a ciphertext opens exactly when its version is in the window, otherwise it is refused by number |
| `TenantKeys.DecryptIffFewRotations` | packages/core-secrets/src/tenant-key-provider.ts:95-137 | without a clear: readable after fewer than N rotations, refused after N or more |
| `TenantKeys.TenantKeyProvider.GetVersions` | packages/core-secrets/src/tenant-key-provider.ts:163-176 | the cached versions, or version 1 freshly cached |
| `TenantKeys.TenantKeyProvider.RotateKey` | packages/core-secrets/src/tenant-key-provider.ts:75-87 | the next version is appended and the window pruned, for this tenant only |
| `TenantKeys.TenantKeyProvider.PruneOldVersions` | packages/core-secrets/src/tenant-key-provider.ts:178-185 | only the newest N versions stay |
| `TenantKeys.TenantKeyProvider.EncryptForTenant` | packages/core-secrets/src/tenant-key-provider.ts:95-102 | the text sealed under the current version |
| `TenantKeys.TenantKeyProvider.DecryptForTenant` | packages/core-secrets/src/tenant-key-provider.ts:107-137 | the plaintext, or the error of the first check that fails |
| `TenantKeys.TenantKeyProvider.ClearTenantCache` | packages/core-secrets/src/tenant-key-provider.ts:150-152 | the tenant starts over, the others stay |
| `TenantKeys.TenantKeyProvider.ClearCache` | packages/core-secrets/src/tenant-key-provider.ts:143-145 | all tenants start over |
| `Reducer.StoredIsDelivered` | packages/orchestrator/src/reducer.ts:91-97 | a task's store holds, per kind, exactly what was delivered since its last reset |
| `ReducerProperties.ReductionConverges` | packages/orchestrator/src/reducer.ts:99-318 | histories with the same per-kind subsequences give the same packet but for the order of contributing signals |
| `ReducerProperties.OtherTasksInvisible` | packages/orchestrator/src/reducer.ts:91-105 | other tasks' events and resets leave no trace in a task's store |
| `ReducerProperties.TurnIdsDistinct` | packages/orchestrator/src/orchestrator-correction.ts:206 | no two turns of a loop share a task id |
| `ReducerProperties.TurnsDoNotMix` | packages/orchestrator/src/orchestrator-correction.ts:205-217 | signals of one turn never reach the packet of another |
| `ReducerProperties.PassIff` | packages/orchestrator/src/reducer.ts:249-303 | a packet passes exactly when it is spotless, its graph is unbroken if looked at, and every required slot has reported |
| `ReducerProperties.PassIffSignalsClean` | packages/orchestrator/src/reducer.ts:122-303 | the same in terms of the stored signals alone |
| `ReducerProperties.FailIffSignalsFaulty` | packages/orchestrator/src/reducer.ts:249-303 | a packet fails exactly when a required slot is missing or skipped, a judged verifier broke, is silent without excuse or found errors, or the output is not intact; the rest are warnings |
| `ReducerProperties.PacketReports` | packages/orchestrator/src/reducer.ts:107-247 | every figure of the packet is that of the latest signal, or the default of a silent verifier |
| `ReducerProperties.OrderIsFirstDelivery` | packages/orchestrator/src/reducer.ts:91-97 | the kinds of a task are kept in the order of their first delivery since its reset |
| `ReducerProperties.LatestIsLastDelivered` | packages/orchestrator/src/reducer.ts:105-120 | what counts of a kind is the signal delivered last since the reset |
| `ReducerProperties.MissingAre` | packages/orchestrator/src/reducer.ts:280-293 | missing are the required slots without a signal, skipped those whose latest signal says so |
| `ReducerProperties.EmittedFilesAre` | packages/orchestrator/src/reducer.ts:217-247 | every file of every emission and nothing else |
| `ReducerProperties.TaggedAre` | packages/orchestrator/src/reducer.ts:272-276 | every signal contributes under its kind with its own time and source |
| `ReducerProperties.DemotionNeverHurts` | packages/orchestrator/src/reducer.ts:122-303 | demoting any set of slots never lowers the overall result |
| `ReducerProperties.CollectEmissions` | packages/orchestrator/src/reducer.ts:217-247 | all emitted files in order, with their byte total |
| `ReducerProperties.ClassifyRequired` | packages/orchestrator/src/reducer.ts:280-293 | the required slots without a signal and those that skipped, in policy order |
| `ReducerProperties.ListContributions` | packages/orchestrator/src/reducer.ts:272-276 | every stored signal, by kind in insertion order |
| `ReducerProperties.StateReducer.Store` | packages/orchestrator/src/reducer.ts:91-97 | the store of the modelled delivery |
| `ReducerProperties.StateReducer.ResetTask` | packages/orchestrator/src/reducer.ts:320-322 | only the task's signals go |
| `ReducerProperties.StateReducer.Reduce` | packages/orchestrator/src/reducer.ts:99-318 | the packet of the modelled reduction; nothing changes |
| `Verdict.PassIsTrustworthy` | packages/orchestrator/src/orchestrator-finalize.ts:93-118 | neither the reduction nor the after-the-fact override lets an untrustworthy packet pass |
| `Verdict.FinalizedIs` | packages/orchestrator/src/orchestrator-finalize.ts:93-118 | finalising changes only the overall result and the enforcement, and only where an artifact delegation changed no file or a schema-contract one changed and emitted nothing |
| `Verdict.FinalizedIff` | packages/orchestrator/src/orchestrator-finalize.ts:93-118 | a finalised packet passes exactly when its signals are clean and something was produced, and fails exactly when they are faulty or nothing was |
| `Verdict.FinalizedBrokenIff` | packages/orchestrator/src/orchestrator-finalize.ts:100-118 | a finalised packet counts as protocol-broken if and only if an unterminated or truncated signal is stored and the override did not replace the enforcement: schema contract, no file changed, nothing emitted |
| `CorrectionLoop.LooserLimitsKeepAcceptance` | packages/orchestrator/src/correction-loop.ts:12-137 | the turn limit and the budget only cut runs short: an accepted run stops at the same turn under looser limits, accepted, and a pass stays a pass |
| `CorrectionLoop.RunTurns` | packages/orchestrator/src/orchestrator-correction.ts:85-221 | between 1 and maxCorrections+1 turns with as many packets, all but the last "correct" within limit and budget and the last not, each action the one its input and packet call for, running token sums, the cost, mode and validation left at the end |
| `CorrectionLoop.VerdictSettled` | packages/orchestrator/src/truth-model.ts:52-130 | over every run, exactly when the verdict is pass and exactly when it is fail, in terms of the stored signals and the validation of the last turn |
| `CorrectionLoop.FailClosed` | packages/orchestrator/src/orchestrator-correction.ts:224-246 | exactly when the run is accepted; a final pass proves acceptance; with a validator that the last validation passed and that no unterminated or truncated signal was stored, except where the override hides it; without one that the last packet is trustworthy, its signals are clean, something was produced and no such signal was stored |
| `CorrectionLoop.CutOffPassesIff` | packages/orchestrator/src/truth-model.ts:60-77 | with a validator, output with such a signal passes if and only if the validator passed it and the override replaced the enforcement |
| `CorrectionLoop.TruncationOverlooked` | packages/orchestrator/src/orchestrator-finalize.ts:107-118 | a truncated schema-contract answer that a validator passes ends in a pass |
| `CorrectionLoop.Run` | packages/orchestrator/src/orchestrator-correction.ts:41-290 | all of this for every run: the turn at which it stops, each turn's own packet, the totals, the budget bound, distinct task ids, pass and fail if and only if, fail-closed, and the empty-loop crash path |
| `Routing.HashToken` | packages/memory-palace/src/routing-engine.ts:75-79 | the FNV-1a fold in 32-bit arithmetic |
| `Routing.MagnitudeIsAbsolute` | packages/memory-palace/src/routing-engine.ts:80 | the absolute value of the hash as a signed 32-bit number |
| `Routing.HashOfA` | packages/memory-palace/src/routing-engine.ts:75-79 | the published hash of one letter |
| `Routing.Vectorize` | packages/memory-palace/src/routing-engine.ts:72-83 | every index in bounds, entry k counts the tokens hashed to k, entries sum to the token count; nothing for zero dimensions |
| `Routing.CauchySchwarz` | packages/memory-palace/src/routing-engine.ts:86-100 | the squared dot product is at most the product of the squared norms, for any two lengths |
| `Routing.Cosine` | packages/memory-palace/src/routing-engine.ts:86-100 | in [-1, 1], in [0, 1] without negative entries, zero for a zero vector, and times the norms it is the dot product |
| `Routing.Score` | packages/memory-palace/src/routing-engine.ts:154-174 | an entry adds its weight to pass, fail or neither, for its model and its mode |
| `Routing.Aggregate` | packages/memory-palace/src/routing-engine.ts:137-179 | one record per model and per mode that occurs, equal to the sums over its entries |
| `Routing.SumsByLesson` | packages/memory-palace/src/routing-engine.ts:141-171 | the pass and fail sums over lessons, outcomes and the double weight of validated entries |
| `Routing.PassRateIs` | packages/memory-palace/src/routing-engine.ts:199 | the pass rate is the share of passes |
| `Routing.PassRateInRange` | packages/memory-palace/src/routing-engine.ts:196-210 | every model's and every mode's pass rate lies in [0, 1] |
| `Routing.NeutralsDoNotScore` | packages/memory-palace/src/routing-engine.ts:156-171 | neutral entries change no pass rate |
| `Routing.PreferredInOrder` | packages/memory-palace/src/routing-engine.ts:212-219 | models of high pass rate are preferred and those of low pass rate with enough evidence avoided, in ranking order, while there is room |
| `Routing.PreferAvoidDisjoint` | packages/memory-palace/src/routing-engine.ts:212-219 | no model is both preferred and avoided |

## Left out

- PlanExecution.Execute: durations, emitted files, policy checks and the recall from memory before the loop.
- PlanParsing.ParseNodes: the JSON text handling before the records, the schema warning, output files, hints, token estimate and rationale text.
- EventLog.EventLogger.Append: an unterminated line and what is written behind it are taken as one line that does not parse, without modelling the text.
- EventLog.VerifyLog: starts from the list of lines; a missing secret and an unreadable file are answered before that.
- EventBus.Bus.Emit: the clock is read once per emit, and the event id is the given content hash.
- RateLimiting.RateLimiter.Check: the clock is an argument, never read.
- Quotas.QuotaManager.SetQuota: a limit given explicitly as undefined counts as left out.
- TenantKeys.TenantKeyProvider.RotateKey: activation times are not modelled; the number of active versions is a natural number (a negative one would make pruning loop forever).
- CorrectionLoop.Run: the busy flag, workspaces, memory observations, prompts and the crash path other than the empty loop.
- Routing.Aggregate: the list of cases, which copies fields of each entry.
- Routing.PreferAvoidDisjoint: holds for any ranking order; the ranking sort itself, confidence and expected tokens are not modelled.
- Policy hashes, timestamps of packets and rationale texts are carried or dropped, never interpreted.
- The circuit breaker and the retry decision of the model client: single-key counters and a table.
- Model calls, HTTP, command line, plugin host, role tables, policy allowlists, lint and secret patterns, file copying, process spawning and storage back ends.
