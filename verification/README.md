# EcoRoute: a verified model of its protocols, cache, agent loop and data invariants

EcoRoute routes chat requests to model endpoints by quality and carbon. This project models the parts of
it whose correctness spans several functions or a whole run, and proves what they promise. Each module
follows one component:

| module | component |
|---|---|
| `JobRows`, `JobRetries` | one row of the durable job table, its transactions, and the retry budget over a job's whole life |
| `JobQueue`, `JobRuns`, `JobRecovery`, `WorkerLoop`, `JobLoss`, `JobSharing` | job rows, the Redis stream and the worker as a state machine whose steps are single transactions and commands: safety, recovery, the loop in place, and when several live workers lose a job |
| `ResponseCache`, `SemanticLookup` | the two tiers of the response cache and the ranked lookup |
| `Text`, `JsonText`, `EventStream`, `ChatStream` | string operations, JSON text, the event-stream frames of the gateway and the page's incremental reader |
| `RequestLifecycle` | one chat request: cache hit, live stream, buffered completion, transport and quality fallback |
| `NodeAgent`, `DesiredState`, `Telemetry`, `ControlTransactions` | the node agent's loop, the server's handlers that set what it should do, its telemetry and the server's store, the transaction around host controls |
| `Datasets`, `DatasetImport` | dataset review, approval, copy-on-write editing and export; import with its splits |
| `EndpointPools` | endpoints, policies and logical models, and what the gateway may rely on |
| `ImpactExport`, `Pagination` | the grouped impact export, cursor paging |
| `Embeddings`, `DemoRegions` | the hashing embedder and its similarity, the demo region overlay |

State that the source updates in place is a class whose methods are proved against functions of the old
state; protocols are functions from a state and an action to a state, and the results about them speak of
every run. `dafny verify dfyconfig.toml` checks everything.

## What was found

Several tempting statements are false of the code. Each is stated here with the lemma that shows it.

- **Attempts count starts, not failures.** A transient failure re-queues a job exactly when at most three
  executions of it have been started (`JobRetries.FailureEndsExactlyWhen`), so a job deferred three times has
  no retry left (`JobRetries.DeferralsConsumeTheRetries`).
- **A cancelled job can come back.** A job that is over is so for good exactly when no execution of it is under
  way, since a deferral or a transient failure re-queues it whatever its status
  (`JobRetries.OverForGoodExactlyWhen`).
- **Two live workers can lose a job.** When a slow worker defers a job whose entry a second worker has
  claimed and started, the slow one acknowledges the entry they share; if the second then dies, the job is
  `running` for good (`JobLoss.TwoWorkersCanLoseAJob`, `JobSharing.StuckAmongForGood`). Any number of workers
  that never claim an entry another still holds lose nothing (`JobLoss.UnsharedEntriesLoseNothing`), and every
  claim that takes the only entry of an unfinished job from a worker that still holds it can end so
  (`JobSharing.SharedEntryCanLoseItsJob`). Crews that acknowledge within the minute after which entries may be
  claimed lose nothing (`JobLoss.PromptCrewsLoseNothing`).
- **A Redis value may outlive its row**, by less than a minute, because the remaining time to live is
  rounded up to a minute: exactly when a store meets the row in the last minute of its life
  (`ResponseCache.LateStoreOutlives`, `ResponseCache.PunctualHitsAreLive`, with
  `ResponseCache.HitMayOutliveItsRow` as an instance).
- **A response whose transaction is rolled back after it was stored is served all the same**, as the Redis
  value stays: exactly when there was no live row, and then no invalidation by scope reaches it but through
  an expired row (`ResponseCache.LostStoreIsServed`).
- **A heat or heartbeat-loss rollback need not stick**: a benchmark that is already running raises the
  profile later (`NodeAgent.RollbackSticks` gives the exact condition).
- **The guardrail fires at every third bad heartbeat in a row**, since its counter restarts when it fires
  (`NodeAgent.GuardrailFiresEveryThird`).
- **The desired version of a node need not grow.** Handlers write the version they read plus one, so of two
  that overlap the agent can adopt the first and never see the second, and go on optimizing although it
  should observe (`DesiredState.OverlappingHandlersCanBeMissed`, `DesiredState.MissedForGood`). A commit
  reaches the agent exactly when its handler read no less than the agent has applied
  (`DesiredState.CommitReachesExactlyWhen`), and one that asks for the profile it read leaves another's in
  place (`DesiredState.CommitLeaves`); handlers that commit in turn miss nothing
  (`DesiredState.NothingIsMissed`).
- **Telemetry numbers restart with the process** while the agent's identity stays, so a restarted agent's
  samples are acknowledged and dropped (`Telemetry.RestartedNumbersAreDropped`).
- **A snapshot file left by a process with fewer controls does not cover the new ones**: a file undoes
  every apply exactly when it names every control (`ControlTransactions.FileUndoesExactlyWhen`).
- **A rollback that raises inside an apply leaves the earlier controls changed**
  (`ControlTransactions.FailedApplyRestoresExactlyWhen`).
- **A rollback that fails without raising is taken as done**: a restore then removes the snapshot file, and the
  original settings are lost (`ControlTransactions.RestoreBringsBackTheOriginal` gives the exact condition).
- **The live page shows only the first choice** of a chunk, the record keeps all of them
  (`ChatStream.OnlyTheFirstChoiceIsShown`).
- **The routing decision does not follow a buffered transport fallback, and a quality fallback that errs or
  runs out of time is recorded as an attempt but not reported as a fallback**
  (`RequestLifecycle.GatewayRun.RunBuffered` states exactly when, for every outcome).
- **A live request can stay open for good**, its row `routing` and its attempt `streaming`: exactly when its
  first chunk came and no stream slot was free, the chunk could not be read, the client left between two
  chunks, or the last transaction raised before its commit (`RequestLifecycle.GatewayRun.RunLive`). A cache
  hit without a slot is accounted for and not delivered (`RequestLifecycle.GatewayRun.CompleteCacheHit`).
- **A buffered request can leave no trace** although providers were asked: exactly when its last answer cannot
  be read, such as one whose first choice has no message, or its transaction does not commit
  (`RequestLifecycle.GatewayRun.RunBuffered`).
- **Stated splits can divide near-duplicates**: some embedder makes an accepted import leak exactly when the
  stated splits divide a paraphrase group (`DatasetImport.NearDuplicatesLeakExactlyWhen`, with
  `DatasetImport.StatedSplitsCanLeak` as an instance).
- **Editing an endpoint can break the rule for required fallbacks**, after which the model's own settings
  are refused (`EndpointPools.EditedFallbackBlocksItsModel`), and **reconfiguring hosting can leave another
  model's baseline off its policy's allowlist** (`EndpointPools.HostingKeepsAllowlistsExactlyWhen`).
- **The demo counterfactual can add carbon**, exactly when the energy spent beyond the baseline's costs more
  at the target than the move avoids at the baseline's energy (`DemoRegions.AddsCarbonExactlyWhen`): so a
  request charged the baseline's own energy adds some unless the target is cleaner by more than the router's
  share (`DemoRegions.SameEnergyAddsCarbonExactlyWhen`), and so may a lower tier when endpoints have energy
  estimates of their own (`DemoRegions.LowerTierCanAddCarbon`, `DemoRegions.EstimatesFollowTheTiers`).

The reader of event streams is the support page's. Its server passes a gateway stream through for
self-hosted inference (`apps/support-demo/src/app/api/chat/route.ts:173`); in the mode the page asks for at
present (`apps/support-demo/src/components/SupportChat.tsx:92`) it prints one chunk of its own instead
(`route.ts:153-160`), in a notation this model does not cover.

## Model

| member | source | states |
|---|---|---|
| JobRows.ExecutionSettles | services/worker/ecoroute_worker/main.py:89-159 | An uninterrupted execution counts one attempt exactly when the job may start, never leaves it running or locked, re-queues it exactly on a deferral or a transient failure with retries left, and does not touch a finished job |
| JobRows.ExecutionHoldsBack | services/worker/ecoroute_worker/main.py:58-86 | After an execution that ends at a given time the job may be started, and polled, again exactly from the delay it asked for on, or exactly 15, 60 and 300 seconds after a transient failure of its first, second and third start, and never after any other end |
| JobRows.ExecutionRecords | services/worker/ecoroute_worker/main.py:44-86 | When the job ended and the error of its failure are recorded as the run says, and a row that is not due yet only loses its lock |
| JobRows.LockHolds | services/worker/ecoroute_worker/main.py:162-180 | A poll locks a job for exactly 300 seconds while it stays queued |
| JobRows.PollTakes | services/worker/ecoroute_worker/main.py:162-180 | A poll takes at most a hundred due jobs, each once, and leaves one out only for a hundred that are no later |
| JobRows.JobTable.FinishJob | services/worker/ecoroute_worker/main.py:44-55 | Completes the row whatever its status was, and says whether there is one |
| JobRows.JobTable.DeferJob | services/worker/ecoroute_worker/main.py:58-67 | Re-queues the row and unlocks it, whatever its status was, as the transaction does after which it may be started exactly when the delay is over |
| JobRows.JobTable.FailOrRetry | services/worker/ecoroute_worker/main.py:70-86 | Re-queues after the delay of the attempt, or fails the row for good |
| JobRows.JobTable.ExecuteJob | services/worker/ecoroute_worker/main.py:89-159 | The whole execution computes the transactions' composition, including a success whose announcement fails |
| JobRows.JobTable.EnqueueDueJobs | services/worker/ecoroute_worker/main.py:162-185 | Locks exactly the rows the poll may select and publishes one entry for each |
| JobRetries.StepKeepsBudget | services/worker/ecoroute_worker/main.py:70-103 | Overlapping executions and re-queues together never exceed the attempts, and the retry table is indexed in range |
| JobRetries.RetriesAreBounded | services/worker/ecoroute_worker/main.py:70-103 | With any number of workers, overlaps, crashes, deferrals and repeats, failures re-queue a job at most three times and the delays never decrease |
| JobRetries.RetriesOfAJob | services/worker/ecoroute_worker/main.py:22-22 | The same over the life of a newly submitted job |
| JobRetries.DeferralsConsumeTheRetries | services/worker/ecoroute_worker/main.py:58-84 | Three deferrals use up the retries |
| JobRetries.AttemptsCountStarts | services/worker/ecoroute_worker/main.py:89-103 | Over every run the attempts grow by the number of executions started, whatever ends them |
| JobRetries.FailureEndsExactlyWhen | services/worker/ecoroute_worker/main.py:70-84 | Over every run of a new job a failure re-queues it exactly when it is transient and at most three executions have been started |
| JobRetries.DelaysAreKept | services/worker/ecoroute_worker/main.py:58-84 | Over every run, after a deferral or a failure that re-queues the job no execution is started before the delay is over unless another execution defers or fails too, and one may be as soon as it is |
| JobRetries.NothingGoesUncounted | services/worker/ecoroute_worker/main.py:89-159 | Over every run the executions under way are those started and not ended, and every failure that put the job back is recorded |
| JobRetries.OverForGoodExactlyWhen | services/worker/ecoroute_worker/main.py:58-84 | A finished or cancelled job stays so in every run exactly when no execution of it is under way |
| JobQueue.StepKeepsInv | services/worker/ecoroute_worker/main.py:162-258 | Every step of requests, worker, crash and time keeps rows, stream, batch and pending entries consistent and every unfinished job queued or owed an acknowledgement |
| JobQueue.RunKeepsInv | services/worker/ecoroute_worker/main.py:162-258 | The same over every run |
| JobQueue.NoJobIsEverLost | services/worker/ecoroute_worker/main.py:89-258 | With one live worker at a time, crashes between any two steps and duplicate entries, every non-terminal job is queued or running with an unacknowledged entry |
| JobQueue.IdleFromFacts | services/worker/ecoroute_worker/main.py:217-224 | A claim takes the lowest pending entries idle for a minute, at most its limit, and all of them when there are fewer |
| JobRuns.EntryIsARun | services/worker/ecoroute_worker/main.py:224-229 | Executing and acknowledging one entry is a run of single steps with exactly that effect, whatever the handler does |
| JobRuns.EndingSettles | services/worker/ecoroute_worker/main.py:106-159 | What follows the first transaction of an execution, step by step, yields the executed row |
| JobRuns.ClaimsEverySixthIteration | services/worker/ecoroute_worker/main.py:239-244 | In every run a worker claims only in iterations whose number is a multiple of six |
| JobRuns.OneKindAtATime | services/worker/ecoroute_worker/main.py:232-258 | In every state the steps a worker can take are of one kind |
| JobRuns.WorkerTakes | services/worker/ecoroute_worker/main.py:217-251 | A read takes the next ten entries or all that are left, a claim the hundred lowest that have been idle for a minute or all there are |
| JobRecovery.DrainBatch | services/worker/ecoroute_worker/main.py:225-229 | A batch can always be finished: the job sought is restarted on the way, or nothing newly delivered stays unacknowledged |
| JobRecovery.Iteration | services/worker/ecoroute_worker/main.py:239-258 | A whole iteration of the loop can always be followed to its end, in the loop's own order, unless it restarts the job sought first |
| JobRecovery.ReachTop | services/worker/ecoroute_worker/main.py:232-258 | A live worker reaches the top of its loop from wherever it stands between two entries, unless it restarts the job sought first |
| JobRecovery.LiveWorkerStartsItAgain | services/worker/ecoroute_worker/main.py:89-258 | In every reachable state, whatever the handler that may be running does, a live worker's own steps and one pause start an unfinished job again, unless that handler is the job's own and ends it |
| JobRecovery.UnfinishedJobStartsAgain | services/worker/ecoroute_worker/main.py:89-258 | From every state that keeps the invariant an unfinished job is started again by time and the worker's own steps alone, after a start of the worker if none is alive |
| JobRecovery.EveryUnfinishedJobStartsAgain | services/worker/ecoroute_worker/main.py:89-258 | The same from every reachable state |
| JobLoss.StuckForGood | services/worker/ecoroute_worker/main.py:162-229 | A running job with no entry left is never started again by polling, claiming, reading, restarts or time |
| JobLoss.OneWorkerNeverSticks | services/worker/ecoroute_worker/main.py:89-258 | One live worker at a time never reaches such a state |
| JobLoss.TurnKeepsInv | services/worker/ecoroute_worker/main.py:89-258 | With any crew of workers on one queue, a step that claims no entry another still holds keeps every running job owed by an entry nobody is about to acknowledge |
| JobLoss.UnsharedEntriesLoseNothing | services/worker/ecoroute_worker/main.py:89-258 | Any number of live workers, crashing and starting at will, lose no job in a run in which no claim takes an entry another still holds |
| JobLoss.PromptIsHarmless | services/worker/ecoroute_worker/main.py:217-222 | Entries delivered less than a minute ago are not claimed from the worker that holds them |
| JobLoss.PromptCrewsLoseNothing | services/worker/ecoroute_worker/main.py:217-229 | Over every run a crew whose workers hold no entry for a minute while another claims loses no job |
| JobLoss.TwoWorkersCanLoseAJob | services/worker/ecoroute_worker/main.py:217-229 | A run of two live workers, sharing an entry, that leaves a job stuck |
| JobSharing.StuckAmongForGood | services/worker/ecoroute_worker/main.py:162-229 | A running job that no worker of a crew has an entry for is never started again, whatever the whole crew does |
| JobSharing.Advance | services/worker/ecoroute_worker/main.py:225-229 | A worker gets to an entry of its batch, and past its execution, by its own steps alone |
| JobSharing.SharedEntryCanLoseItsJob | services/worker/ecoroute_worker/main.py:217-229 | From every state a crew can be in, a claim of the only entry of an unfinished job that another live worker still holds can be continued by the two until the job is stuck among all |
| WorkerLoop.BatchIsARun | services/worker/ecoroute_worker/main.py:252-257 | Executing and acknowledging a batch entry by entry is a run of single steps |
| WorkerLoop.IterationIsARun | services/worker/ecoroute_worker/main.py:239-258 | An uninterrupted iteration is a run of the state machine that ends at the top of the next |
| WorkerLoop.WorkerProcess.Process | services/worker/ecoroute_worker/main.py:252-257 | The loop over a batch executes every entry once, in order, and acknowledges them all |
| WorkerLoop.WorkerProcess.RecoverPending | services/worker/ecoroute_worker/main.py:217-229 | Claims idle entries and processes them, as the state machine does |
| WorkerLoop.WorkerProcess.ReadAndProcess | services/worker/ecoroute_worker/main.py:245-258 | Reads new entries, processes them and counts the iteration, as the state machine does |
| WorkerLoop.WorkerProcess.Iterate | services/worker/ecoroute_worker/main.py:239-258 | One iteration in place is the state machine's, and keeps its invariant |
| ResponseCache.TiersAlwaysAgree | services/gateway/ecoroute/cache/service.py:117-205 | Over every run of stores, lost stores, invalidations, cleanups, purges and time a fingerprint has at most one active row, and a live Redis value is that row's payload unless a store under its fingerprint was lost |
| ResponseCache.HitIsTheActiveRow | services/gateway/ecoroute/cache/service.py:49-51 | Under a fingerprint that lost no store an exact hit is the payload of the one active row, which expired, if at all, less than a minute ago |
| ResponseCache.StepKeeps | services/gateway/ecoroute/cache/service.py:117-205 | One step keeps at most one active row per fingerprint, and the agreement of the tiers under each fingerprint unless it loses a store there |
| ResponseCache.LostStoreIsServed | services/gateway/ecoroute/cache/service.py:154-205 | A store whose transaction is rolled back leaves the tiers disagreeing and is served exactly when it met no live row; an invalidation by scope then reaches it exactly through an expired row in the scope |
| ResponseCache.InvalidationLasts | services/gateway/ecoroute/api/control.py:1924-1991 | An invalidated response is not served again in any run until a response is stored under its fingerprint |
| ResponseCache.KeepsTheValueExactlyWhen | services/gateway/ecoroute/api/control.py:1924-1991 | A step other than a store keeps a fingerprint's value unchanged exactly when it does not lose it, invalidate an entry of it, or clean up an expired, withdrawn or evicted one |
| ResponseCache.HitLasts | services/gateway/ecoroute/cache/service.py:154-205 | After a store the answering row is served, in every run that does not touch its fingerprint, as long as it lives but for less than its last second |
| ResponseCache.HousekeepingKeepsExactly | services/worker/ecoroute_worker/jobs/handlers.py:896-975 | A cleanup keeps exactly the unexpired rows and withdraws exactly the evicted, a purge keeps every active row and what was invalidated since |
| ResponseCache.LateStoreOutlives | services/gateway/ecoroute/cache/service.py:154-168 | A store that meets a live row lets the value outlive it, and be served at its expiry, exactly when the row has less than a minute left |
| ResponseCache.PunctualHitsAreLive | services/gateway/ecoroute/cache/service.py:49-51 | Under a fingerprint without late and lost stores every exact hit is of a row that has not expired |
| ResponseCache.HitMayOutliveItsRow | services/gateway/ecoroute/cache/service.py:154-168 | A run that ends with a hit of an expired row |
| ResponseCache.CacheService.StoreEntry | services/gateway/ecoroute/cache/service.py:117-205 | Returns the row that now answers for the fingerprint, the live one if there is one, makes the tiers agree on it and keeps their agreement elsewhere, and makes an exact lookup return that row's payload, as long as `HitLasts` says |
| ResponseCache.CacheService.InvalidateEach | services/gateway/ecoroute/api/control.py:1985-1991 | The loop marks exactly the given rows and drops exactly their keys |
| ResponseCache.CacheService.InvalidateCache | services/gateway/ecoroute/api/control.py:1946-2000 | Refuses an unknown scope, previews without a confirmation, refuses a count that has changed, and otherwise invalidates exactly the active rows of the scope and counts them |
| SemanticLookup.TopThreeRefinesFullScan | services/gateway/ecoroute/cache/service.py:96-115 | Deciding from three rows is deciding from all: an entry is returned if and only if it reaches the threshold and beats every other eligible entry by the margin |
| SemanticLookup.TiesDoNotMatter | services/gateway/ecoroute/cache/service.py:96-115 | The answer depends on neither row order nor tie-breaking |
| SemanticLookup.OneRowIsNotEnough | services/gateway/ecoroute/cache/service.py:103-111 | Deciding from the first row alone would serve a row that does not win exactly when a second is closer than the margin; two rows decide like three |
| SemanticLookup.SemanticIndex.SemanticFind | services/gateway/ecoroute/cache/service.py:62-115 | Returns exactly the winner over all live, embedded policy answers of the same context and counts the hit on it alone |
| Text.JoinUndoesSplit | services/gateway/ecoroute/api/gateway.py:412-415 | Splitting a text on a separator loses nothing |
| Text.SplitIsIncremental | apps/support-demo/src/components/SupportChat.tsx:107-109 | Splitting can be suspended at any point by keeping back the last part |
| Text.SplitUndoesJoin | services/gateway/ecoroute/carbon/demo_region.py:25-25 | Parts without the separator survive joining and splitting |
| Text.SpacesDiffer | services/gateway/ecoroute/carbon/demo_region.py:25-27 | Exactly where the white space of Python's strip and of JavaScript's trim differ |
| JsonText.StringReadsBack | services/gateway/ecoroute/api/gateway.py:411-411 | An escaped string is read back whatever follows it |
| JsonText.DocumentReadsBack | services/gateway/ecoroute/api/gateway.py:411-411 | Parsing undoes printing for every document |
| JsonText.DocumentIsPrintable | services/gateway/ecoroute/api/gateway.py:411-411 | A printed document holds no line break that could end a frame early |
| JsonText.EscapeSpells | services/gateway/ecoroute/api/gateway.py:411-411 | Which characters are spelled as themselves, in two, in six and in twelve characters |
| JsonText.JunkIsRefused | apps/support-demo/src/components/SupportChat.tsx:113-114 | Control characters in strings, meaningless escapes and anything but a comma or closing bracket after an item are not read |
| EventStream.ReadMessage | apps/support-demo/src/components/SupportChat.tsx:100-119 | The reader's result is a function of the stream alone, wherever the network cuts it |
| EventStream.ChunksAreRead | apps/support-demo/src/components/SupportChat.tsx:107-118 | Printed chunks are read as their pieces, whatever follows them |
| EventStream.Refill | apps/support-demo/src/components/SupportChat.tsx:107-109 | Whole frames are read now and the rest of the buffer with what comes next |
| ChatStream.CompletionSse | services/gateway/ecoroute/api/gateway.py:397-431 | The generator prints the replay's chunks frame by frame, then the end marker |
| ChatStream.ReplayIsRead | services/gateway/ecoroute/api/gateway.py:397-431 | For every content the page reads the content and exactly one trailing space |
| ChatStream.LiveEvents | services/gateway/ecoroute/api/gateway.py:1027-1086 | The live generator forwards every chunk under the requested model and records the text of all choices |
| ChatStream.LiveAndReplayAgree | services/gateway/ecoroute/api/gateway.py:1049-1072 | For single-choice chunks the live page shows exactly what is recorded, and a replay of the record shows the same after trimming |
| ChatStream.OnlyTheFirstChoiceIsShown | services/gateway/ecoroute/api/gateway.py:1065-1071 | For a chunk with several choices the page and the record differ by exactly the text of the others |
| RequestLifecycle.GatewayRun.Invoke | services/gateway/ecoroute/api/gateway.py:1264-1273 | A provider is called exactly when time is left before the deadline |
| RequestLifecycle.GatewayRun.CompleteCacheHit | services/gateway/ecoroute/api/gateway.py:454-517 | A hit whose transaction commits completes with one impact record and no provider call, on the endpoint that produced the entry, and is delivered unless it is to be streamed and no slot is free; another leaves nothing |
| RequestLifecycle.GatewayRun.Preflight | services/gateway/ecoroute/api/gateway.py:890-988 | The first chunk comes from the chosen endpoint or, after a retryable error, from the eligible fallback; otherwise the request fails cleanly |
| RequestLifecycle.GatewayRun.RunLive | services/gateway/ecoroute/api/gateway.py:870-1197 | One attempt per call; the decision follows the request; and from the input alone, which of failed, completed, cancelled, partial, open or unrecorded it ends as: open exactly when a first chunk came and no slot was free, the chunk could not be read, the client left between two chunks or the last transaction raised |
| RequestLifecycle.GatewayRun.AskInTurn | services/gateway/ecoroute/api/gateway.py:1275-1377 | The transport fallback: which calls are made, and what row, decision and attempts hold when the last one fails |
| RequestLifecycle.GatewayRun.Replace | services/gateway/ecoroute/api/gateway.py:1432-1535 | The quality fallback: it is reported and decided exactly when it gives a usable answer in time, and leaves no trace of the request exactly when its answer cannot be read |
| RequestLifecycle.GatewayRun.Judge | services/gateway/ecoroute/api/gateway.py:1402-1630 | A usable answer is validated, replaced by the fallback's if it falls short and may be, and completed exactly if the last one passes |
| RequestLifecycle.GatewayRun.RunBuffered | services/gateway/ecoroute/api/gateway.py:1247-1630 | From the input alone, for every outcome: which providers are called, when the request completes, when it leaves no trace, how many attempts are recorded, which endpoint row and decision name, when a fallback is reported, and when decision and report go astray; nothing completes or is cached without passing its last validation |
| RequestLifecycle.GatewayRun.Complete | services/gateway/ecoroute/api/gateway.py:1570-1630 | One impact record for the endpoint of the last attempt, and a cache entry, if eligible, that holds what was replied |
| RequestLifecycle.GatewayRun.ChatCompletion | services/gateway/ecoroute/api/gateway.py:603-1690 | At most two calls, the second only to the required fallback, which is another than the first and not excluded; an answer goes out unvalidated only where it needs no validation; a completed uncached request has one impact record, its last attempt on the endpoint it reports, and reports a fallback exactly with a second attempt; any other leaves no impact record and no cache entry; which requests stay open and which leave no trace is told by the input |
| RequestLifecycle.FallbackIsAskedExactlyWhen | services/gateway/ecoroute/api/gateway.py:908-931 | From the input's fields, for live and buffered requests: the fallback is asked exactly when it is one of the model's endpoints, another than the chosen one and not excluded, and the first call failed with one of the four retryable errors, or its usable answer failed validation, a quality fallback is wanted and the endpoint is enabled and of the top tier, and time is left |
| RequestLifecycle.OutcomeFollowsTheCalls | services/gateway/ecoroute/api/gateway.py:1275-1554 | A buffered request completes exactly when its last call gives a usable answer that passes the validation owed to it, and leaves no trace, replaces the answer, fails over and records attempts as its last call tells |
| RequestLifecycle.LiveEndsAreApart | services/gateway/ecoroute/api/gateway.py:1025-1184 | A live request whose first chunk came either stays open or comes to exactly the one end its stream has |
| NodeAgent.GuardrailFiresEveryThird | services/node-agent/ecoroute_agent/real_main.py:667-690 | The guardrail rollback fires exactly when a successful heartbeat completes a multiple of three bad verdicts in a row; failed heartbeats neither count nor reset |
| NodeAgent.OptimizingNeedsALease | services/node-agent/ecoroute_agent/real_main.py:609-717 | Right after a heartbeat attempt an optimizing profile outside a benchmark has a success at most 30 s old, and before the next is due one less than 35 s old |
| NodeAgent.LossTakesDownExactlyWhen | services/node-agent/ecoroute_agent/real_main.py:699-716 | A lost heartbeat takes an optimizing agent down exactly when the last success is more than 30 s old |
| NodeAgent.SilenceTakesDown | services/node-agent/ecoroute_agent/real_main.py:699-716 | Over every run of silence that lasts beyond 30 s after the last success and ends with an attempt the agent goes down |
| NodeAgent.GuardrailsInPercent | services/node-agent/ecoroute_agent/real_main.py:103-126 | What the guardrails allow in percent under each profile, that what is not measured and a zero baseline limit nothing, and that Eco tolerates what Balanced does |
| NodeAgent.AppliedVersionOnlyGrows | services/node-agent/ecoroute_agent/real_main.py:623-647 | The applied version never decreases, and over every run is that of the last desired state that was newer, met no benchmark and was accepted by the host |
| NodeAgent.OptimizesAsAccepted | services/node-agent/ecoroute_agent/real_main.py:625-690 | Over every run an optimizing profile outside a benchmark's own phase is that of the last desired state the host accepted |
| NodeAgent.RefusedIsNotTaken | services/node-agent/ecoroute_agent/real_main.py:645-647 | What the host refuses changes neither version nor profile, but for a rollback |
| NodeAgent.RollbackSticks | services/node-agent/ecoroute_agent/real_main.py:625-690 | A rolled-back agent stays down until a newer version or an assignment, if and only if no running benchmark has yet to raise its profile |
| NodeAgent.EveryRollbackTakesDown | services/node-agent/ecoroute_agent/real_main.py:677-741 | Each of the three rollbacks takes the agent to observe and keeps its applied version from falling; the guardrail's always sticks |
| NodeAgent.AgentProcess.ReceiveHeartbeat | services/node-agent/ecoroute_agent/real_main.py:620-690 | A reply in place is the state machine's heartbeat |
| NodeAgent.AgentProcess.LoseHeartbeat | services/node-agent/ecoroute_agent/real_main.py:699-716 | A lost heartbeat in place is the state machine's |
| NodeAgent.AgentProcess.Turn | services/node-agent/ecoroute_agent/real_main.py:595-762 | One turn of the loop drops an ended benchmark task, attempts a heartbeat when one is due and samples when a sample is due |
| DesiredState.VersionsOnlyGrow | services/gateway/ecoroute/api/control.py:3713-3715 | Over every run in which handlers commit in turn the version never decreases, the agent never runs ahead of it, and server, reply and agent agree on what a version asks for |
| DesiredState.AgentRunsAsAlone | services/node-agent/ecoroute_agent/real_main.py:609-690 | Whatever the handlers do meanwhile, what the agent does in a run of the whole is a run of the agent |
| DesiredState.CommitLeaves | services/gateway/ecoroute/api/control.py:3713-3715 | A commit writes the version after the one it read, and the profile it asks for unless that is the one it read |
| DesiredState.NothingIsMissed | services/gateway/ecoroute/api/control.py:4678-4690 | In such a run the agent never holds the current version with another profile than the server asks for |
| DesiredState.CommitReachesExactlyWhen | services/gateway/ecoroute/api/control.py:3713-3715 | A commit reaches the agent with its next answered heartbeat exactly when its handler read no less than the agent has applied, or it asks for just what the agent has |
| DesiredState.MissedForGood | services/node-agent/ecoroute_agent/real_main.py:623-647 | What the agent has missed it never adopts in any run without another commit |
| DesiredState.OverlappingHandlersCanBeMissed | services/gateway/ecoroute/api/control.py:4109-4112 | A run in which a cancelled benchmark's request to observe is missed |
| Telemetry.BatchIsAccepted | services/node-agent/ecoroute_agent/real_main.py:742-757 | Every post carries one to sixty samples: its own and the unacknowledged ones before it |
| Telemetry.StoredIffDelivered | services/gateway/ecoroute/api/control.py:4782-4818 | A sample is stored if and only if one of the sixty posts from its own on reached the server, and it is stored unchanged |
| Telemetry.NothingIsStoredTwice | services/gateway/ecoroute/api/control.py:4793-4809 | No sample is inserted twice, however often it is posted, and every stored one was inserted |
| Telemetry.AcknowledgedMeansAllStored | services/node-agent/ecoroute_agent/real_main.py:752-761 | Unless sixty posts in a row fail, an acknowledged post leaves every sample so far stored |
| Telemetry.RestartedNumbersAreDropped | services/node-agent/ecoroute_agent/real_main.py:559-559 | A number used by an earlier process keeps its old sample |
| Telemetry.TelemetryServer.Receive | services/gateway/ecoroute/api/control.py:4782-4827 | Takes exactly a registered agent's batch of one to sixty samples, all its own and a simulator's labeled so, and inserts and counts exactly the new numbers; refuses any other, each for its reason, and then stores nothing of it |
| Telemetry.TelemetryClient.PostSample | services/node-agent/ecoroute_agent/real_main.py:742-761 | The buffer keeps the last sixty unacknowledged samples and is cleared exactly by an answer that took them |
| ControlTransactions.ControlTransaction.Apply | services/node-agent/ecoroute_agent/controls/transaction.py:31-59 | All controls take their settings, or those tried are rolled back until a rollback raises; if none raises the host is as it was exactly when every rollback leaves what was there; an earlier snapshot file is kept |
| ControlTransactions.ControlTransaction.ApplyInTurn | services/node-agent/ecoroute_agent/controls/transaction.py:39-51 | Controls are applied up to and including the first that does not pass, but not one whose plan raises |
| ControlTransactions.ControlTransaction.RollBackApplied | services/node-agent/ecoroute_agent/controls/transaction.py:52-55 | The controls tried are rolled back last first, up to one whose rollback raises |
| ControlTransactions.FailedApplyRestoresExactlyWhen | services/node-agent/ecoroute_agent/controls/transaction.py:52-59 | A failed apply gives the host back exactly when every control tried comes back: by its rollback if no later one raises, by what its apply left otherwise |
| ControlTransactions.PassesExactlyWhen | services/node-agent/ecoroute_agent/controls/transaction.py:40-51 | An apply passes exactly when every control is applied and verified |
| ControlTransactions.ComesToExactly | services/node-agent/ecoroute_agent/controls/transaction.py:40-59 | An apply that fails tries the controls up to the first that fails, that one too unless its plan raised, and raises exactly when one of them raises in its rollback |
| ControlTransactions.ControlTransaction.Restore | services/node-agent/ecoroute_agent/controls/transaction.py:61-97 | Rolls back every control the file covers and removes the file exactly when the file covers them all, no others, and no rollback raises |
| ControlTransactions.RestoreBringsBackTheOriginal | services/node-agent/ecoroute_agent/controls/transaction.py:31-97 | After any run of applies, failures, rollbacks that raise or slip, crashes amid an apply and partial restores, in which no restore that passed failed in silence, a restore passes exactly when no rollback raises, and brings back the host as it was before the first apply exactly when none fails in silence either |
| ControlTransactions.FileUndoesExactlyWhen | services/node-agent/ecoroute_agent/controls/transaction.py:34-97 | A snapshot file that agrees with the host undoes every apply exactly when it covers every control, and no restore passes with one that does not |
| Datasets.ManifestPinsTheContent | services/gateway/ecoroute/api/control.py:2565-2580 | With distinct external ids two sets of rows have one manifest if and only if they have the same lines, in any order |
| Datasets.RepeatedIdsShowTheOrder | services/gateway/ecoroute/api/control.py:2565-2580 | Without the unique constraint the order of the rows would show |
| Datasets.StepKeepsInv | services/gateway/ecoroute/api/control.py:2584-2743 | Every request and job keeps external ids distinct and an approved dataset's count and manifest those of exactly its exported rows |
| Datasets.ApprovedDatasetsAreFrozen | services/gateway/ecoroute/api/control.py:2594-2743 | In every run an approved dataset keeps its status, rows, count and manifest, and the manifest covers exactly what is exported |
| Datasets.EditingApprovedCopies | services/gateway/ecoroute/api/control.py:2597-2638 | Editing an approved version leaves it alone and makes a next version of unapproved copies in which only the edited row can differ |
| Datasets.EditTakenExactlyWhen | services/gateway/ecoroute/api/control.py:2584-2690 | An edit is taken exactly when the row is there, the dataset is neither generating nor failed and the fields are valid; in draft or review it changes that row alone and drops the manifest |
| Datasets.EditChangesExactly | services/gateway/ecoroute/api/control.py:2644-2682 | The named fields take the given values and the others stay; a changed text withdraws the approval unless the edit itself reviews the row |
| Datasets.ApprovedExactlyWhen | services/gateway/ecoroute/api/control.py:2701-2743 | An approval succeeds exactly when it is confirmed, the dataset is in draft or review and some row is not rejected, and then approves exactly the rows not rejected |
| Datasets.OnlyApprovalApproves | services/gateway/ecoroute/api/control.py:2701-2743 | No other request or job makes a dataset approved |
| Datasets.VersionsAreMade | services/gateway/ecoroute/api/control.py:2205-2440 | An import or a generation makes one next version that holds exactly its distinct, unapproved rows, a generation's once |
| Datasets.ReviewRows | services/gateway/ecoroute/api/control.py:2724-2735 | The approval loop marks every row and accepts exactly the ones an export will select |
| Datasets.DatasetStore.ApproveDataset | services/gateway/ecoroute/api/control.py:2701-2751 | Every refusal leaves the dataset alone; a success accounts for each row as approved or rejected |
| Datasets.DatasetStore.PatchExample | services/gateway/ecoroute/api/control.py:2584-2697 | Copy on write, refusals and edits as specified; the edited version is never an approved one |
| Datasets.DatasetStore.ExportDataset | services/gateway/ecoroute/api/control.py:2755-2786 | Only an approved dataset exports, exactly its non-rejected rows, and their lines are the manifest's |
| Datasets.DatasetStore.FailJob | services/worker/ecoroute_worker/main.py:29-41 | A failed job does not touch an approved dataset |
| DatasetImport.Prepare | services/gateway/ecoroute/api/control.py:2294-2411 | The loop refuses the first row with a bad verdict, with that verdict, and otherwise prepares every row |
| DatasetImport.ClashesWithPrior | services/gateway/ecoroute/api/control.py:2366-2371 | A near-duplicate of an earlier row in another group is found |
| DatasetImport.AcceptedImportDoesNotLeak | services/gateway/ecoroute/api/control.py:2313-2410 | Accepted inputs are pairwise distinct after folding, near-duplicates share a group, and rows of one group without a stated split share the split |
| DatasetImport.AcceptedExactlyWhen | services/gateway/ecoroute/api/control.py:2294-2389 | Exactly which rows are accepted, in whatever order they come: each good by itself, and any two different after folding and in one group if nearer than the threshold |
| DatasetImport.ItemKeepsTheRow | services/gateway/ecoroute/api/control.py:2374-2392 | An accepted row is named as it asks or after its group and text, within a hundred characters, and goes into the split it states or its group's |
| DatasetImport.SplitsShareTheBuckets | services/gateway/ecoroute/api/control.py:2374-2377 | Of the hundred buckets exactly seventy are for training, fifteen for evaluation and fifteen for testing |
| DatasetImport.DividedGroupLeaks | services/gateway/ecoroute/api/control.py:2366-2375 | When stated splits divide a group of an accepted import, an embedder that finds its texts alike leaves the import accepted with near-duplicates on two sides |
| DatasetImport.NearDuplicatesLeakExactlyWhen | services/gateway/ecoroute/api/control.py:2366-2377 | An accepted import keeps near-duplicates together, whatever the embedder finds near, exactly when no group's stated splits divide it |
| DatasetImport.StatedSplitsCanLeak | services/gateway/ecoroute/api/control.py:2373-2375 | An accepted import with near-duplicates on both sides of a split |
| EndpointPools.StepKeepsInv | services/gateway/ecoroute/api/control.py:1059-1335 | Every handler keeps each pool non-empty, duplicate-free and live, with the baseline and fallback in it |
| EndpointPools.PoolsStaySound | services/gateway/ecoroute/api/control.py:132-190 | The same over every run of endpoint, policy, model and hosting requests |
| EndpointPools.LookupsSucceed | services/gateway/ecoroute/api/gateway.py:335-365 | After any run an enabled model loads with its whole pool, its baseline and fallback are found among the loaded rows, and its impact baseline is not deleted |
| EndpointPools.SettledExactlyWhen | services/gateway/ecoroute/api/control.py:132-190 | References are accepted exactly when the pool is of different endpoints that are there, holds baseline and fallback, the fallback is enabled and of the top tier or alone, the impact baseline is there and the policy's allowlist allows both |
| EndpointPools.CreatedExactlyWhen | services/gateway/ecoroute/api/control.py:1186-1242 | A model is created exactly when its alias is bounded and free, a policy is named and its references settle, with the defaults the request leaves out |
| EndpointPools.PatchedExactlyWhen | services/gateway/ecoroute/api/control.py:1265-1335 | A patch is taken exactly when the references it leaves settle |
| EndpointPools.PatchChangesExactly | services/gateway/ecoroute/api/control.py:1265-1335 | Fields a patch names take its values, the others and the other models stay; a model patched to disabled is not loaded, one patched to enabled is with its whole pool |
| EndpointPools.ActivatedExactlyWhen | services/gateway/ecoroute/api/control.py:1414-1450 | A policy is activated exactly when the model's references settle under it, and nothing else changes |
| EndpointPools.DeletedExactlyWhen | services/gateway/ecoroute/api/control.py:1057-1088 | An endpoint is deleted exactly when it is there and no model has it in its pool or as a baseline, an impact baseline or a fallback; nothing else changes |
| EndpointPools.AllowlistsAreKept | services/gateway/ecoroute/api/control.py:181-189 | Every handler but the hosting configuration keeps baseline and fallback on the policy's allowlist |
| EndpointPools.HostingKeepsAllowlistsExactlyWhen | services/gateway/ecoroute/api/control.py:4013-4039 | Reconfiguring hosting keeps another model listed exactly when its policy is not rewritten or already allows just its endpoint |
| EndpointPools.EditedFallbackBlocksItsModel | services/gateway/ecoroute/api/control.py:168-174 | After an edit of its fallback a model validates exactly while the fallback is enabled and of the top tier, or alone |
| EndpointPools.Registry.RemoveEndpoint | services/gateway/ecoroute/api/control.py:1057-1088 | A deletion is refused exactly while some model refers to the endpoint |
| EndpointPools.Registry.CreateLogicalModel | services/gateway/ecoroute/api/control.py:1186-1242 | A created model is sound and listed; every refusal, from an unbounded alias on, leaves the tables alone |
| EndpointPools.Registry.PatchLogicalModel | services/gateway/ecoroute/api/control.py:1265-1335 | Field-by-field patching computes the validated replacement or nothing |
| EndpointPools.Registry.ConfigureHostingRoutes | services/gateway/ecoroute/api/control.py:3929-4071 | Refused exactly without confirmation, hosted service or healthy local endpoint; otherwise wires two sound, listed, singleton routes and keeps every other model sound |
| ImpactExport.GroupRows | services/gateway/ecoroute/api/control.py:4496-4532 | Every group holds exactly its key's sums, the groups together hold all accounted rows, and each evidence level's count is right |
| ImpactExport.TotalsAreByKey | services/gateway/ecoroute/api/control.py:4499-4531 | A group's total is the total of the rows of its endpoint, hour, level, source and version |
| ImpactExport.RowCountsFor | services/gateway/ecoroute/api/control.py:4499-4531 | What a row counts for and under which name |
| ImpactExport.AddToGroup | services/gateway/ecoroute/api/control.py:4513-4531 | One more accounted row raises exactly its own group |
| ImpactExport.BuildTree | services/gateway/ecoroute/api/control.py:4535-4548 | Each child gathers exactly the groups of its slug, and the children together hold them all |
| ImpactExport.Export | services/gateway/ecoroute/api/control.py:4496-4548 | Requests, durations, energy and carbon are conserved even when slugs collide, evidence counts add up to the same requests, and intensity times energy is carbon wherever energy is not zero |
| ImpactExport.CountRow | services/gateway/ecoroute/api/control.py:4532-4532 | One more accounted row raises exactly its evidence level's count |
| ImpactExport.RaiseOne | services/gateway/ecoroute/api/control.py:4528-4531 | Raising one key's value raises the sum over all keys by as much |
| Pagination.NextStartsAfter | services/gateway/ecoroute/api/control.py:126-129 | The rows below a full page's cursor are exactly the rows after the page |
| Pagination.PagingIsComplete | services/gateway/ecoroute/api/control.py:1544-1641 | For the id and the compound cursor and any page size, following the cursors ends and yields the whole sorted list, each row once |
| Pagination.PagesAreFull | services/gateway/ecoroute/api/control.py:126-129 | Every page but the last is full, and a non-empty table has no empty page |
| Pagination.LogReadsInOrder | services/gateway/ecoroute/api/control.py:2916-2931 | Per-page-reversed log pages put one before the other give the whole log, oldest first |
| Embeddings.Encode | services/gateway/ecoroute/cache/embeddings.py:62-74 | The loop over the buckets yields the scaled tallies of the features, of squared length 1, or 0 exactly when all buckets cancel |
| Embeddings.TallyIsADifference | services/gateway/ecoroute/cache/embeddings.py:62-72 | A bucket holds the features of odd digests less those of even ones that fall into it |
| Embeddings.CauchySchwarz | services/gateway/ecoroute/cache/embeddings.py:82-83 | The inequality for any two vectors of one length |
| Embeddings.SimilarityIsBounded | services/gateway/ecoroute/cache/embeddings.py:82-83 | Similarities of embeddings lie in [-1, 1], and 1 is reached only by a vector and itself |
| Embeddings.EncodedTextsCompare | services/gateway/ecoroute/cache/embeddings.py:62-83 | For any two feature lists the similarity is within bounds, and 1 against itself unless all buckets cancel, when it is 0 against everything |
| Embeddings.CollisionsCanErase | services/gateway/ecoroute/cache/embeddings.py:69-72 | Two colliding features of opposite sign erase each other |
| DemoRegions.ParseCandidates | services/gateway/ecoroute/carbon/demo_region.py:22-40 | The loop computes the specified reading, stopping at the first bad or repeated entry |
| DemoRegions.ParseUndoesPrint | services/gateway/ecoroute/carbon/demo_region.py:22-40 | Parsing undoes printing of any normalized duplicate-free list |
| DemoRegions.ParsePrintParse | services/gateway/ecoroute/carbon/demo_region.py:22-40 | Whatever a value parses to is normalized, duplicate-free, and prints to a value that parses to the same |
| DemoRegions.ChoiceIgnoresOrder | services/gateway/ecoroute/carbon/demo_region.py:43-65 | The overlay does not depend on the order of the readings |
| DemoRegions.ChoosesTheCleanest | services/gateway/ecoroute/carbon/demo_region.py:43-65 | The target is an available reading than which none is cleaner, nor as clean in an earlier region; the reference is the first available one of the configured region; there is an overlay exactly when there is a reference |
| DemoRegions.TargetSavesCarbon | services/gateway/ecoroute/carbon/demo_region.py:62-98 | The target is never dirtier than the reference, avoided carbon is never negative, and the raw delta is not negative while the selected energy is at most the baseline's |
| DemoRegions.AssumptionsFollowTheTiers | services/gateway/ecoroute/carbon/demo_region.py:8-13 | A lower tier is assumed to need less for the same tokens, by more than the router adds |
| DemoRegions.EstimatesFollowTheTiers | services/gateway/ecoroute/carbon/demo_region.py:107-131 | A lower tier is charged no more whatever the tokens exactly when neither endpoint has an estimate of its own, or it has one below the least the higher tier is charged |
| DemoRegions.AddsCarbonExactlyWhen | services/gateway/ecoroute/api/gateway.py:248-265 | For any estimates, the raw delta is negative exactly when more energy is spent than the baseline's and costs more at the target than the move avoids |
| DemoRegions.LowerTierAddsNoCarbon | services/gateway/ecoroute/api/gateway.py:248-265 | A request routed to a lower tier has no negative raw delta when neither endpoint has an estimate of its own |
| DemoRegions.LowerTierCanAddCarbon | services/gateway/ecoroute/api/gateway.py:248-265 | With estimates of their own it can |
| DemoRegions.SameEnergyAddsCarbonExactlyWhen | services/gateway/ecoroute/api/gateway.py:260-265 | A request charged the baseline's energy and the router's has a negative raw delta exactly when the target is not cleaner by the router's share |

## Left out

- Recovery with several workers: that an unfinished job starts again is proved for one live worker at a time; row locks that make an execution skip are part of what one worker never meets, and are not in `JobLoss`.
- Redis details: `XAUTOCLAIM` walks pending entries once from the start and its internal scan limit is not modelled; a stream that is trimmed or lost is not modelled.
- Periodic job scheduling: `_ensure_periodic_jobs` is any submission of a new job without an entry.
- Event publishing and metrics: a publish is a step that may fail where the worker's control flow depends on it, part of whether the transaction commits in `RequestLifecycle`, and nothing elsewhere.
- Early failures of a chat request: one that raises before a cached answer or a provider's is at hand leaves nothing and is not a run of `RequestLifecycle`; adapters raise provider errors only.
- Job handlers: what they return, raise or defer is an input; `dataset.finalize`, which no code enqueues, is not a step of `Datasets`.
- Time in `WorkerLoop`: an iteration in place runs at one clock reading; the state machine lets time pass between any two steps.
- HTTP, SQL and Redis as such: a handler or transaction is atomic, and what it wrote is discarded when it raises before its commit, but for the Redis value of a cache store; only the handlers of `DesiredState` overlap.
- Approximate search: the HNSW index is taken to return the exact order; scores are any function in `SemanticLookup`.
- Cache cleanup: which rows a capacity eviction picks is an input, any set of active rows.
- JSON white space, and text decoding: everything the gateway prints is ASCII, so the page's UTF-8 decoder is the identity. Texts are sequences of Unicode scalar values: a lone surrogate, which `JSON.parse` accepts as an escape, is not modelled.
- Routing, classification, quality validation and impact arithmetic: their verdicts and choices are inputs of `RequestLifecycle`.
- Cache eligibility: whether a lookup hit and whether a completion may be stored are inputs of `RequestLifecycle`.
- Benchmark phases: a benchmark is its profile changes; its measurements and reports are not modelled.
- Host settings changed by others while a control transaction is open are not modelled.
- `_canonical_tokens`, the optional Sentence Transformers backend, SHA-256 and floating-point rounding: tokens and digests are inputs, digests are injective where a manifest is compared, and arithmetic is exact.
- White-space collapsing of imported inputs, the safety screen and the schema of a row's target are inputs of `DatasetImport`.
- Cursor text: a cursor is the value it encodes.
- Idempotency keys: a repeated request is answered from the first one's row and changes nothing.
- Texts a group or child of the impact export carries beside its sums (attribution method, defaults, timestamps as text).
- Workspaces: there is one, as the handlers assume.
- Seeding: the initial tables are empty; the invariants are stated from any tables that satisfy them.
- React components other than the reader loop, migrations, the simulator agent, training scripts and kernel-lab servers: plumbing, data, or easier copies of what is modelled.
- `report_summary`, `uuid7`, percentile helpers, macro F1 and reward scorers: short computations that nothing modelled here relies on.
