# A verified model of the image-classification platform

A Dafny 4.11 model of the parts of the platform whose correctness depends on state, order or
arithmetic, with proofs about every run or every input. `dafny verify dfyconfig.toml` checks it.

| file | models |
|---|---|
| `AuditProtocol.dfy`, `AuditShapes.dfy`, `AuditInvariants.dfy`, `AuditTheorems.dfy`, `AuditReach.dfy`, `AuditOutcomes.dfy`, `AuditOrder.dfy`, `AuditFlush.dfy`, `AuditStop.dfy`, `AuditReturn.dfy`, `AuditLock.dfy`, `AuditService.dfy` | the audit trail: a bounded drop-oldest queue between a synchronous producer, a background writer, `flush` and a restartable `stop` |
| `RateLimit.dfy` | the sliding-window limiter and its Lua script |
| `InferenceCache.dfy` | classification behind the fail-open result cache, with overlapping requests |
| `ModelRegistry.dfy`, `Experiments.dfy`, `AbTesting.dfy`, `JsonValues.dfy` | model versions, experiments read from a JSON file, and traffic splitting |
| `SimilarityIndex.dfy` | the FAISS index, its manifest and what a search result means |
| `Partitions.dfy` | monthly partitions of the audit table over the passing of time |
| `TrainingLoop.dfy`, `CutMix.dfy` | the training loop and the CutMix/MixUp collator |
| `Selection.dfy` | top-k and the selection of detections |
| `SyncDocs.dfy` | rewriting the generated block of a document |
| `Common.dfy`, `Strings.dfy` | options, results, sequences, numerals and colon-joined keys |

## How the code is read

- **Steps.** Each stretch of asyncio code between two awaits is one atomic step; any enabled step may come
  next. The audit model keeps a frame for every suspended coroutine, and `asyncio.Lock` is modelled with
  its FIFO queue of waiters. A record is named by its acceptance number, so "in acceptance order" means
  ascending. The methods of class `AuditService` are these stretches, and each is proved to do what the
  protocol step of its name does; the theorems about runs therefore speak about the class.
- **Commits** succeed or raise nondeterministically; a commit that raises has written nothing.
- **The limiter** assumes a non-decreasing clock, distinct members and one fixed limit per caller. The Lua
  script is one atomic step.
- **The cache** assumes, for the requests of the run, that digests do not collide, that the model's name and
  backend contain no colon (versions may) and that one name, version and backend stands for one set of
  weights. Entries may expire, be evicted or turn into something that is no payload - bytes that are no UTF-8, text
  that is no JSON or nested too deeply, null or other JSON - at any moment, any Redis call may fail, and a request
  may be cancelled at any await.
  Preprocessing, the forward pass and the softmax are one deterministic function of model and image.
- **Foreign orderings** (`argpartition`, `argsort`, FAISS search) are used only through their contracts, so
  the results hold for every way of ordering equal scores.
- **Numbers.** Weights, losses, scores and pixels are exact reals, and rounding of reported values is left
  out; milliseconds, row numbers, months and the 2^64 hash positions are exact integers. Python's
  truncating `int(x / d)` is written out in the Retry-After arithmetic. Calendar months are counted from
  January of year 0.
- **Class indices** are natural numbers; Python's negative indexing from the end is not used.
- **JSON** is modelled as Python sees it after parsing: numbers that Python finds equal are one value, objects keep
  their keys in order, texts may have lone surrogates, and an integer beyond every double makes `float` raise
  OverflowError. What the parser accepts can also be formatted and logged. Callers' ids, and the names and versions
  of loaded models, are text that UTF-8 can encode.
- **Registry** methods run under the registry's lock, so each call is one step.

## Where the code and its documentation disagree

The model follows the code; each difference has its exact condition or a concrete run.

- `flush` is documented to write everything queued, including a batch in flight. It drains outside the lock,
  so a writer can take a record and still hold it when `flush` returns. Exact conditions: with the lock free
  `AuditFlush.FlushBarrierExactly`, behind the only writer `AuditLock.FlushDuringCommitExactly`.
- `stop` is documented to leave no record behind. It keeps that while the writer in `_task` is all that runs; without
  one in `_task` it keeps it exactly if nothing that runs can reach an earlier record (`AuditStop.StopBarrierExactly`).
  With starts while it runs, exactly if one drain suffices (`AuditStop.StopAmidStartsExactly`). A running writer that
  is not in `_task` does occur: two overlapping stops around a restart leave one
  (`AuditStop.OverlappingStopsOrphanWriter`).
- `_collect` is said to let `stop` return promptly. Its timeout aside, a waiting stop can return exactly if its writer
  has exited or the stop event is set (`AuditReturn.StopCanReturnExactly`); an overlapping stop can clear the event
  under it (`AuditReturn.StopCanBeStranded`), and one more stop frees it (`AuditReturn.PleaFreesStop`).
- `append_to_index` promises that a failure leaves index and manifest as they were. With absent, unparseable or
  incomplete metadata it fails after writing them (`SimilarityIndex.RefusedAppend`), and it compares only the
  labels with the rows, not the paths (`SimilarityIndex.StepAlignsExactly`).
- A misconfigured experiments file "never breaks serving". For some files the loader itself raises
  (`Experiments.LoadRaisesExactly`, and two such files in `Experiments.LoadRaisesOn`). A loaded experiment whose name
  has a lone surrogate fails every caller (`Experiments.SurrogateBreaksServing`), and one that routes to a version
  loaded with another runtime fails the callers who pin the active one. `Experiments.NeverBreaksExactly` says exactly
  when none of this happens.
- Version directories are documented to be self-describing. The default version can take its weights from one
  layout and its labels from the other (`ModelRegistry.SameLayoutExactly`).
- The cache is documented never to fail a request. A stored value that is no UTF-8, is nested beyond the parser's
  limit or is JSON of the wrong shape does (`InferenceCache.CacheNeverFailsRequests`).
- Failed inferences are documented to be audited. A selected class without a name raises outside the guarded call,
  and so do those three cache entries and a cancellation; none leaves a record. `InferenceCache.AuditedExactly` says
  which requests have one, and `InferenceCache.UnnamedLeavesNoRecord` shows a model with too few names. Non-finite
  logits, whose predictions also fail outside that call, are left out with all floating point.
- Reversing the batch is said to give each example a different partner; in an odd batch the middle one is its
  own (`CutMix.PartnersDiffer`).
- A reported step loss is said to be the accumulation window's average. It averages exactly its own window's losses
  unless the synchronising microbatch before was non-finite and left some pending
  (`TrainingLoop.ReportsOwnWindowExactly`; `TrainingLoop.WindowsShareReport` shows three microbatches).

## Model

| member | source | states |
|---|---|---|
| `AuditInvariants.StepKeepsInv` | api/services/audit_service.py:113-292 | Every step of every coroutine keeps the invariant: each accepted record occurs once among queue, frames, committed, failed and dropped; counters, queue bound, queue order, lock ownership and the marks of returned calls agree |
| `AuditTheorems.ReachableInv` | api/services/audit_service.py:85-292 | That invariant holds in every reachable state of every interleaving, restarts included |
| `AuditTheorems.ExactlyOnePlace` | api/services/audit_service.py:159-274 | A record is accepted exactly if it is somewhere, it is in one place only, and there once |
| `AuditTheorems.CountersBalance` | api/services/audit_service.py:64-79 | `queued` counts the accepted records and equals dropped + written + failed + queued and held ones; the queue never exceeds its capacity; one writer at most holds the lock |
| `AuditTheorems.ReturnedSettles` | api/services/audit_service.py:235-292 | After a `flush` or `stop` has returned, a record accepted before its call is not queued, and is settled if and only if no live coroutine holds it |
| `AuditOutcomes.OutcomesExactly` | api/services/audit_service.py:252-274 | Over every run the committed records are exactly the batches held when their commits returned, in order, and the failed ones those held when their commits raised; `written` and `failed` are their numbers |
| `AuditOutcomes.BatchesBounded` | api/services/audit_service.py:225-250 | In every reachable state nobody holds more than a batch, and one record if the batch size is not positive |
| `AuditOutcomes.DrainEndsExactly` | api/services/audit_service.py:242-250 | A drain is over after a write if and only if that batch was short or nothing is queued by then |
| `AuditTheorems.StopIsBarrier` | api/services/audit_service.py:120-157 | When a `stop` that no other start, stop or flush overlaps returns, nothing runs and every record accepted before it is committed, failed or dropped, in one of them and once - from any reachable state, so after any number of restarts |
| `AuditOrder.StepPipeline` | api/services/audit_service.py:183-274 | With one consumer, every step but `record` leaves finished batches ++ held ++ queue as it was |
| `AuditOrder.FirstInFirstOut` | api/services/audit_service.py:166-250 | Without flush and overlapping calls, that concatenation is the accepted sequence minus the overflow victims, in acceptance order |
| `AuditOrder.OverflowKeepsNewest` | api/services/audit_service.py:166-181 | While nobody consumes, the queue is the newest records that fit and each further overflow drops exactly one |
| `AuditFlush.DrainSettles` | api/services/audit_service.py:235-292 | A flush with the lock free, or a stop without a writer in `_task`, settles everything accepted before it on every interleaving if nobody holds a record and one drain takes the whole queue or nobody runs |
| `AuditFlush.DrainSlips` | api/services/audit_service.py:235-292 | Otherwise some interleaving lets it return while somebody holds an earlier record |
| `AuditFlush.FlushBarrierExactly` | api/services/audit_service.py:276-292 | A flush called with the lock free, in any reachable state, is a barrier if and only if nobody holds a record and one drain takes the whole queue or nobody runs |
| `AuditFlush.FlushWaitsForCommit` | api/services/audit_service.py:286-291 | A flush called during a commit does not get past the lock before that batch is settled |
| `AuditReach.QuietTask` | api/services/audit_service.py:120-157 | In every reachable state in which no stop waits, the stop event is clear and the writer in `_task`, if any, is running |
| `AuditStop.StopBarrierExactly` | api/services/audit_service.py:120-157 | A stop called while only its own writer runs, at whatever await, or without a writer in `_task`, whatever runs, settles everything accepted before it on every interleaving if and only if it has that writer, or nobody holds a record and one drain takes the whole queue or nobody runs |
| `AuditStop.StopAmidStartsExactly` | api/services/audit_service.py:113-157 | For the same calls, with starts allowed while it runs: if and only if one drain takes what its own writer's last pass leaves queued, or, without one, the whole queue while nobody holds a record |
| `AuditReturn.WaitingFlushCanReturn` | api/services/audit_service.py:188-189 | In every reachable state the lock's waiters are exactly the coroutines that wait for it, each once, and every waiting flush can return without new calls |
| `AuditReturn.StopCanReturnExactly` | api/services/audit_service.py:139-157 | From a reachable state a waiting stop can return without new calls if and only if its writer has exited or the stop event is set |
| `AuditReturn.PleaFreesStop` | api/services/audit_service.py:139-157 | From every reachable state one more stop, after a start if `_task` is empty, lets a waiting stop return |
| `AuditLock.FlushDuringCommitExactly` | api/services/audit_service.py:286-292 | A flush called while the only writer waits for the lock or commits, waiters being woken before the new getter, settles everything accepted before it, batch in flight included, if and only if one drain takes the whole queue |
| `AuditServiceModel.AuditService.constructor` | api/services/audit_service.py:85-107 | A new service is the initial state and satisfies the invariant |
| `AuditServiceModel.AuditService.RecordFields` | api/services/audit_service.py:159-181 | `record`: append, or drop the oldest and append; nothing when disabled; the invariant is kept |
| `AuditServiceModel.AuditService.RunGetter` | api/services/audit_service.py:205-205 | The getter task takes the oldest record into its result |
| `AuditServiceModel.AuditService.Collect` | api/services/audit_service.py:207-233 | After the wait: getter result, then queued records up to the batch size, then lock, wait or exit |
| `AuditServiceModel.AuditService.EndWrite` | api/services/audit_service.py:188-194 | The writer's commit ends: `written` or `failed`, by whether it raised, grows by the batch and the other does not change; the lock is released, and the writer exits if stopping |
| `AuditServiceModel.AuditService.Drain` | api/services/audit_service.py:242-250 | The loop of `_drain` up to its next await or its return |
| `AuditServiceModel.AuditService.EndDrainWrite` | api/services/audit_service.py:246-274 | A drain's commit ends, with the same counting, and the drain goes on or returns |
| `AuditServiceModel.AuditService.AcquireLock` | api/services/audit_service.py:188-189 | The first waiter gets the released lock; a flush gives it back and drains |
| `AuditServiceModel.AuditService.StartWriter` | api/services/audit_service.py:113-118 | `start` adds a writer only when enabled and none is running |
| `AuditServiceModel.AuditService.Flush` | api/services/audit_service.py:276-292 | `flush` drains at once if the lock is free and queues behind it otherwise |
| `AuditServiceModel.AuditService.Stop` | api/services/audit_service.py:139-142 | `stop` sets the event and waits for the writer, or drains at once without one |
| `AuditServiceModel.AuditService.StopAfterWriter` | api/services/audit_service.py:148-156 | The writer having ended: drop the handle, clear the event, drain |
| `RateLimit.RateLimiter.Check` | api/middleware/rate_limit.py:107-135 | Store and decision are those `DecidesExactly` speaks of; a missing or failing Redis lets the caller through with the full quota and changes nothing; other callers' windows are untouched |
| `RateLimit.RateLimiter.Reset` | api/middleware/rate_limit.py:155-162 | Exactly that caller's window is gone, unless Redis is missing or fails |
| `RateLimit.CallersAreIndependent` | api/middleware/rate_limit.py:119-119 | Two callers share a key exactly if tier and user are the same |
| `RateLimit.CallersRunAlone` | api/middleware/rate_limit.py:107-162 | Over every interleaving of any callers' checks and resets, some of which Redis does not answer, a caller's window is what its own answered requests since its last reset leave |
| `RateLimit.DecisionsAreOwn` | api/middleware/rate_limit.py:119-135 | And every reply of the script is the one the caller would have had alone |
| `RateLimit.OwnWellTimed` | api/middleware/rate_limit.py:117-120 | Among calls with a steady clock and distinct members each caller's own requests have both, so the results about one caller hold for each of many |
| `RateLimit.WindowIsLog` | api/middleware/rate_limit.py:46-67 | After every request the stored set is the full admission log cut to the window, and the reply is that of a limiter that never forgets |
| `RateLimit.QuotaHolds` | api/middleware/rate_limit.py:53-61 | No half-open 60000 ms window, wherever it starts, holds more than `limit` admissions |
| `RateLimit.CountWithinLimit` | api/middleware/rate_limit.py:53-61 | The admissions that still count never exceed the limit |
| `RateLimit.ExpiryIsInvisible` | api/middleware/rate_limit.py:56-60 | Key expiry changes no decision and no reported count, on any request sequence |
| `RateLimit.NextAdmission` | api/middleware/rate_limit.py:133-135 | After a rejection, and with nothing admitted since, a request is admitted if and only if it comes at oldest + window or later |
| `RateLimit.RejectedUntilOldestLeaves` | api/middleware/rate_limit.py:53-66 | Before that instant every request is rejected, however many come |
| `RateLimit.RetryAfterIsTight` | api/middleware/rate_limit.py:133-135 | Waiting Retry-After seconds reaches that instant and overshoots it by at most 1000 ms |
| `RateLimit.DecidesExactly` | api/middleware/rate_limit.py:107-135 | However callers interleave, a caller is let through if and only if fewer than `limit` of its own admissions lie in the last 60000 ms; then `remaining` is the limit less those and this one; otherwise it is 0, and waiting the advised seconds reaches the instant the oldest leaves the window, at most a second late |
| `RateLimit.NoCallerExceedsLimit` | api/middleware/rate_limit.py:107-135 | No caller is let through more than `limit` times in any half-open 60000 ms window, since its last reset |
| `Partitions.ParsedName` | migrations/versions/20260914_1800_partition_inference_logs.py:212-256 | Reading a partition name back gives its month modulo ten thousand years |
| `Partitions.NameRoundTrip` | migrations/versions/20260914_1800_partition_inference_logs.py:212-256 | It gives the month itself exactly up to December 9999 |
| `Partitions.NameInjective` | migrations/versions/20260914_1800_partition_inference_logs.py:212-214 | Different months have different names, in any year |
| `Partitions.RowsRoute` | migrations/versions/20260914_1800_partition_inference_logs.py:146-169 | A row goes to its month's partition if there is one and to DEFAULT if not |
| `Partitions.PartitionsDisjoint` | migrations/versions/20260914_1800_partition_inference_logs.py:214-219 | No two partitions overlap |
| `Partitions.Catalogue.constructor` | migrations/versions/20260914_1800_partition_inference_logs.py:160-172 | The migration creates exactly six months back to three ahead |
| `Partitions.Catalogue.CreatePartitions` | migrations/versions/20260914_1800_partition_inference_logs.py:209-224 | Exactly the missing months from now to `months_ahead` are created and reported |
| `Partitions.Catalogue.DropExpired` | migrations/versions/20260914_1800_partition_inference_logs.py:239-265 | Exactly the months whose names parse as one before the cutoff are dropped and reported, in any catalogue order |
| `Partitions.RetentionExactly` | migrations/versions/20260914_1800_partition_inference_logs.py:239-263 | Those are the months before the cutoff, except for months from year 10000 on whose name parses as an expired one |
| `Partitions.Catalogue.Maintain` | scripts/maintain_partitions.py:85-103 | One job creates, then drops |
| `Partitions.JobsKeepSpan` | migrations/versions/20260914_1800_partition_inference_logs.py:202-265 | Over any run of timely jobs before year 10000 the months covered are one contiguous range around the latest run |
| `Partitions.RowsStampedNowHaveAHome` | scripts/maintain_partitions.py:11-13 | While jobs run in time a row stamped now goes to exactly its month's partition, never to DEFAULT |
| `Partitions.ContiguousExactlyIfInTime` | scripts/maintain_partitions.py:11-13 | A job leaves a hole exactly if it comes after everything created ran out and keeps some older month |
| `AbTesting.Make` | models/validation/ab_testing.py:57-80 | An experiment is accepted exactly if it has variants, weights in range that sum to one within tolerance, and distinct names |
| `AbTesting.CloseToOneExactly` | models/validation/ab_testing.py:74-76 | The weights' tolerance is exactly a total from 0.999999 to 1.000001 |
| `AbTesting.Assign` | models/validation/ab_testing.py:82-105 | The loop picks the first variant whose cumulative share exceeds the position, reports when the fallback is taken, and raises exactly for an enabled experiment whose name UTF-8 cannot encode |
| `AbTesting.SliceOf` | models/validation/ab_testing.py:97-105 | A variant gets exactly the half-open slice between its neighbours' cumulative shares, the last one the rest |
| `AbTesting.FallbackExactly` | models/validation/ab_testing.py:103-105 | The fallback is reached exactly by positions at or past the total weight |
| `AbTesting.FallbackUnreachable` | models/validation/ab_testing.py:93-105 | With weights summing to one no position reaches it |
| `AbTesting.PositionsAreInterval` | models/validation/ab_testing.py:93-101 | A variant's hash positions are one interval of integers |
| `AbTesting.TrafficIsProportional` | models/validation/ab_testing.py:93-105 | Of the 2^64 positions a variant gets weight * 2^64 up to less than one, plus at most what the weights miss of one |
| `AbTesting.ReweightingMovesLaterOnly` | models/validation/ab_testing.py:97-105 | None of the 2^64 positions moves to an earlier variant if and only if no prefix of the variants gains a position |
| `AbTesting.SmallerPrefixesMoveLaterOnly` | models/validation/ab_testing.py:97-105 | Lowering or keeping every prefix sum of the weights is enough for that |
| `AbTesting.RampUp` | models/validation/ab_testing.py:97-101 | With two arms, ramping up moves users only from control to challenger |
| `ModelRegistry.KeyInjective` | api/services/model_service.py:190-192 | For colon-free names keys tell models apart, whatever the versions |
| `ModelRegistry.ModelService.Register` | api/services/model_service.py:420-424 | Stores under name:version and activates if asked or if the name is new |
| `ModelRegistry.ModelService.SetActive` | api/services/model_service.py:651-661 | Activates exactly if name:version is loaded, else refuses and changes nothing |
| `ModelRegistry.ModelService.Resolve` | api/services/model_service.py:426-447 | `get`: a pinned version, or the active one for None and the empty string, with both refusals |
| `ModelRegistry.ModelService.ResolveForBackend` | api/services/model_service.py:458-479 | As `get`, and refuses a model loaded with another runtime than the pinned one |
| `ModelRegistry.RunKeepsSane` | api/services/model_service.py:420-661 | In every run active versions stay registered, names stay active and nothing is unregistered |
| `ModelRegistry.RegisterKeepsActive` | api/services/model_service.py:420-424 | Registering without activation never changes the active version of a known name, nor what unpinned requests get |
| `ModelRegistry.ModelsAreHistory` | api/services/model_service.py:420-424 | The dictionary is the history of registrations looked up by name and version, latest first |
| `ModelRegistry.PinnedIsHonoured` | api/services/model_service.py:426-447 | A pinned version is served exactly if it was registered, by the latest model of that name and version |
| `ModelRegistry.BackendIsHonoured` | api/services/model_service.py:458-479 | A pinned version with a pinned runtime is served exactly if the latest such model was loaded with that runtime |
| `ModelRegistry.UnpinnedServedExactly` | api/services/model_service.py:426-447 | An unpinned request is served exactly if a model of that name was ever registered, by its active version |
| `ModelRegistry.ActiveIsWhatUnpinnedGet` | api/services/model_service.py:647-649 | A registered model is active exactly if it is what an unpinned request gets |
| `ModelRegistry.ActiveIsLastActivated` | api/services/model_service.py:420-424 | After any run a name's active version is the one last activated: by registering with make_active or as the first of the name, or by set_active on a version registered before |
| `ModelRegistry.UnpinnedGetsLastActivated` | api/services/model_service.py:426-447 | An unpinned request gets the latest model registered under that version |
| `ModelRegistry.VersionsNeverShareFiles` | api/services/model_service.py:54-103 | Whatever is on disk, two versions never resolve to the same weights or labels |
| `ModelRegistry.SameLayoutExactly` | api/services/model_service.py:79-103 | Weights and labels come from one layout exactly unless the default version's directory has only one of them |
| `Experiments.AvailableVersions` | api/main.py:276-278 | The loop collects exactly the names and versions of the loaded models |
| `Experiments.Load` | api/services/experiment_service.py:46-118 | Raises what `LoadRaisesExactly` says; otherwise returns the experiments that `LoadedExactly` describes |
| `Experiments.ReadExactly` | api/services/experiment_service.py:72-94 | An entry becomes exactly the experiment its fields say - name, variants in order with name, version and weight, enabled unless the field is null, zero or empty - if that is valid, and nothing else |
| `Experiments.LoadedExactly` | api/services/experiment_service.py:71-118 | Under each model there is the experiment its last usable entry says, and no other |
| `Experiments.RoutesAsWritten` | api/services/experiment_service.py:120-131 | A disabled entry sends every caller to the version and name of its first variant, an enabled one to those of the variant in whose slice of the weights the caller's position lies |
| `Experiments.OverflowExactly` | api/services/experiment_service.py:75-82 | Reading variants ends in the uncaught OverflowError exactly if the first unreadable variant has an integer weight beyond every double |
| `Experiments.LoadRaisesExactly` | api/services/experiment_service.py:8-18 | Loading raises exactly for a file nested too deeply, without an object at the top, whose experiments are neither absent, empty nor a list, or with an entry that is no object, overflows, or reads with an unhashable model name or version - and which exception it raises |
| `Experiments.LastUsableFits` | api/services/experiment_service.py:72-112 | A loaded experiment is valid and all its versions were available for its model |
| `Experiments.RoutingAlwaysServes` | api/services/experiment_service.py:95-131 | After any later registrations and activations every caller gets no version, one that `get` resolves, to a model of that name and version for colon-free names, or, exactly from an enabled experiment whose name cannot be encoded, an error |
| `Experiments.NeverBreaksExactly` | api/services/experiment_service.py:11-20 | The service starts and everybody who would be served without experiments is served with them if and only if the file is none the loader raises on and the model's last usable entry, if any, is disabled or has an encodable name and, where callers may pin a runtime, sends nobody to a version with another runtime than the active one |
| `Experiments.SurrogateBreaksServing` | api/services/experiment_service.py:120-131 | A file that loads and whose experiment gives no caller a version |
| `Experiments.ReceivesExactly` | api/services/experiment_service.py:120-131 | A variant is given out at some position exactly if its slice of the positions is nonempty, or it is the first of a disabled experiment |
| `Experiments.RoutingAgreesExactly` | api/services/experiment_service.py:120-131 | Routing agrees with the active version at every position if and only if no experiment is loaded for the model, or its name can be hashed or need not be and every variant that receives a position has the active version |
| `InferenceCache.DecodeClassification` | api/services/inference_service.py:293-307 | The decoding loop gives in order a prediction for each class, with that class's name, its WordNet id if there is one and its score if asked for, and fails exactly if some class has no name |
| `InferenceCache.FreshIsLeading` | api/services/inference_service.py:293-307 | A fresh answer lists the k best classes, best first |
| `InferenceCache.KeysAgreeExactly` | api/services/cache_service.py:50-71 | Two keys agree if and only if name:version, backend and both digests do |
| `InferenceCache.OptionReprInjective` | api/services/cache_service.py:66-67 | Different options have different serialised forms |
| `InferenceCache.KeyDeterminesAnswer` | api/services/cache_service.py:50-71 | Under the stated assumptions keys agree exactly if image, model and options do, and then so do the fresh answers |
| `InferenceCache.ColonsCollide` | api/services/cache_service.py:68-71 | With a colon in a name two different models share their entries |
| `InferenceCache.CacheService.Get` | api/services/cache_service.py:73-99 | Hit, miss, failure, text that is no JSON, stored null, other JSON, and values whose reading raises, with their counters and the deletion |
| `InferenceCache.CacheService.Set` | api/services/cache_service.py:101-119 | Writes and reports it, or counts an error |
| `InferenceCache.CacheService.Delete` | api/services/cache_service.py:121-127 | Removes the key, or counts an error |
| `InferenceCache.StepKeepsSound` | api/services/inference_service.py:109-184 | Every step of every request and every loss or corruption keeps each decodable entry a fresh answer for its key |
| `InferenceCache.AnswersAreFresh` | api/services/inference_service.py:100-184 | Over every run a served answer is the one inference without a cache gives |
| `InferenceCache.AnswersAreLabelled` | api/services/inference_service.py:293-307 | Every prediction ever served has the name and WordNet id of its own class and, exactly if asked for, that class's probability |
| `InferenceCache.CacheNeverFailsRequests` | api/services/cache_service.py:9-13 | Each own step brings a request nearer its answer and no other step disturbs it; it ends without predictions exactly by inference failing or naming no class, by cancellation, or by looking up JSON of the wrong shape, JSON nested too deeply or what is no UTF-8 |
| `InferenceCache.RunBalances` | api/services/inference_service.py:109-184 | Hits are the answers from stored values plus the stored nulls read; every failed write and every lookup is counted once, except lookups that raise |
| `InferenceCache.CountersExactly` | api/services/cache_service.py:73-127 | Over every run `hits` counts the lookups that found JSON, `misses` those that found nothing, `errors` the failed calls and the lookups that found text that is no JSON |
| `InferenceCache.AuditedExactly` | api/services/inference_service.py:131-182 | Over every run a request that ended has an audit record if and only if it was served from the cache, or inference failed, or every selected class has a name and neither its lookup nor a cancellation ended it |
| `InferenceCache.RecordsSay` | api/services/inference_service.py:111-182 | Each record says whether its request was served, whether from the cache, and its best class; they are in the order in which the requests ended |
| `InferenceCache.AloneIsHandled` | api/services/inference_service.py:109-184 | An undisturbed request always ends in exactly one answer, determined by entry, faults and inference |
| `InferenceCache.AloneKeepsSound` | api/services/inference_service.py:109-184 | It leaves the cache sound |
| `InferenceCache.RepeatIsHit` | api/services/inference_service.py:108-170 | Once served and stored, the same request is answered from the cache with the same predictions |
| `InferenceCache.UndecodableIsDropped` | api/services/cache_service.py:89-96 | Text that is no JSON does not outlive the request that finds it, unless Redis refuses to delete it |
| `InferenceCache.InferenceService.Classify` | api/services/inference_service.py:100-184 | `classify` as code does what the steps of an undisturbed request do: cache, audit records and outcome |
| `InferenceCache.InferenceService.Infer` | api/services/inference_service.py:132-156 | The forward pass and decoding give the fresh answer |
| `SimilarityIndex.Overwrite` | models/optimisation/export_embedding.py:425-434 | A relabelling loop overwrites exactly the named rows and counts exactly the entries that differ, in any dictionary order |
| `SimilarityIndex.IndexStore.Build` | models/optimisation/export_embedding.py:252-291 | Writes the three files, or refuses vectors that are not unit-norm and writes nothing |
| `SimilarityIndex.IndexStore.Append` | models/optimisation/export_embedding.py:317-381 | Every check, what is written, and what was written before a late failure |
| `SimilarityIndex.IndexStore.UpdateLabels` | models/optimisation/export_embedding.py:408-445 | Refusals leave the files alone; otherwise named rows change and the count of changes is returned |
| `SimilarityIndex.BuildAligns` | models/optimisation/export_embedding.py:270-274 | A build is aligned exactly if rows, labels and paths are equally many |
| `SimilarityIndex.BuildSays` | models/optimisation/export_embedding.py:262-291 | Row by row a build says what it was given, and its metadata where the vectors come from |
| `SimilarityIndex.StepAlignsExactly` | models/optimisation/export_embedding.py:345-366 | An operation keeps alignment exactly if it is not an accepted append with too few or too many paths; refused ones change nothing |
| `SimilarityIndex.RunStaysAligned` | models/optimisation/export_embedding.py:294-445 | Alignment over any run of accepted and refused operations |
| `SimilarityIndex.RefusedAppend` | models/optimisation/export_embedding.py:322-381 | An append is accepted exactly if all checks pass and the metadata is complete; a refused one has changed nothing exactly if a check failed or there was nothing to write |
| `SimilarityIndex.StepSays` | models/optimisation/export_embedding.py:345-441 | An accepted operation changes exactly the rows it names, as it says |
| `SimilarityIndex.RowsCarryTheLatest` | models/optimisation/export_embedding.py:294-445 | After any run every row has the latest label and path an accepted operation gave it |
| `SimilarityIndex.AppendIsBuild` | models/optimisation/export_embedding.py:294-381 | Appending to a built index leaves the same files as building from everything |
| `SimilarityIndex.BuildInPieces` | models/optimisation/export_embedding.py:231-381 | However a corpus is cut into batches, building and appending equals one build |
| `SimilarityIndex.RelabelTwice` | models/optimisation/export_embedding.py:425-445 | The same relabelling again changes nothing and reports zero |
| `SimilarityIndex.Load` | api/services/similarity_service.py:53-86 | Loading succeeds exactly with all files present and parsed and as many labels as rows, and holds the stored index and manifest; paths are not checked |
| `SimilarityIndex.FindSimilar` | api/services/similarity_service.py:135-154 | The loop reports the found rows at or above the minimum, ranked from 1, each with its row's score, label, class name and path, and fails exactly if one of them has no path |
| `SimilarityIndex.SearchIsFaithful` | api/services/similarity_service.py:120-154 | On an aligned index the search never fails, and a row left out is below the minimum or beaten by k reported ones |
| `SimilarityIndex.SimilarityIsInnerProduct` | api/services/similarity_service.py:131-145 | The similarity reported of a row is the sum of the products of its components with the query's |
| `SimilarityIndex.UnitNormExactly` | models/optimisation/export_embedding.py:257-259 | A vector passes if and only if its norm misses one by at most the tolerance |
| `SimilarityIndex.RelabelReachesSearch` | models/optimisation/export_embedding.py:392-396 | A relabelled row is found as before and reported under its new label and path |
| `Selection.LeadingScoresUnique` | api/utils/image_processing.py:164-178 | Two rankings of the k best agree in score at every position |
| `Selection.TopKIsLeading` | api/utils/image_processing.py:164-178 | Partition and sort select k best entries, best first, with distinct indices |
| `Selection.TopKIsPrefixOfSort` | api/utils/image_processing.py:164-178 | They give the values a full descending sort starts with |
| `Selection.ArgMax` | api/services/detection_service.py:111-112 | The first best class |
| `Selection.Above` | api/services/detection_service.py:114-114 | Exactly the queries at or above the threshold |
| `Selection.Decode` | api/services/detection_service.py:111-145 | The loop reports the kept queries, sorted and truncated, each with its first best class, that class's score and name, and the corners of its box, each clamped into the picture |
| `Selection.ReportedAreLeading` | api/services/detection_service.py:114-120 | A query is left out only if it is below the threshold or every reported one scores at least as high |
| `Selection.BoxesStayInside` | api/utils/image_processing.py:220-249 | Whatever the model emits, a reported box lies in the picture |
| `Selection.AxisOrderedExactly` | api/utils/image_processing.py:236-249 | On an axis a box is not inside out exactly if its extent is not negative or it is clipped to one edge |
| `Selection.AxisInverts` | api/utils/image_processing.py:223-229 | For a box inside the picture the corners give centre and extent back exactly |
| `CutMix.SmoothedIsProbability` | models/data/augmentation.py:276-286 | A smoothed one-hot vector is a probability vector |
| `CutMix.BlendIsProbability` | models/data/augmentation.py:329-329 | A blend of two probability vectors is one |
| `CutMix.CorrectionOnlyRaises` | models/data/augmentation.py:288-325 | However the box is clipped, the corrected coefficient lies between the sampled one and 1 |
| `CutMix.BoxExactly` | models/data/augmentation.py:288-299 | A pixel is replaced exactly if it is within half a side of the drawn centre, both ways, half a side being the whole pixels in half the side asked for |
| `CutMix.MethodChosen` | models/data/augmentation.py:314-314 | A method that is switched off is never used if the other is on; with both on the coin decides |
| `CutMix.ReplacedCount` | models/data/augmentation.py:322-322 | The box replaces exactly its area of pixels |
| `CutMix.PartnerWeightIsPixelFraction` | models/data/augmentation.py:322-325 | The partner's label weighs exactly the fraction of pixels replaced |
| `CutMix.Smooth` | models/data/augmentation.py:276-286 | `full` and `scatter_` give the smoothed one-hot rows |
| `CutMix.Splice` | models/data/augmentation.py:321-322 | The copy takes the partner's pixels in the box and the image's own elsewhere, into a fresh array |
| `CutMix.BlendImages` | models/data/augmentation.py:327-327 | Every pixel is `lam` of its own and 1 - `lam` of its partner's |
| `CutMix.BlendTargets` | models/data/augmentation.py:329-329 | Every target entry is `lam` of its own and 1 - `lam` of its partner's |
| `CutMix.Call` | models/data/augmentation.py:300-330 | Every target row is a probability vector; above the smoothing floor the partner's label weighs the fraction of pixels replaced by CutMix, 1 - `lam` under MixUp and nothing unmixed, and its own label the rest; images are spliced, blended or left alone alike |
| `CutMix.PartnersDiffer` | models/data/augmentation.py:249-251 | Every example has a different partner exactly if the batch is even |
| `TrainingLoop.RunBatches` | models/training/pipeline.py:448-523 | The inner loop computes the epoch's summary: NaN count, flag, reported losses, abort |
| `TrainingLoop.Run` | models/training/pipeline.py:421-560 | The nested loops save, report and end as the epoch-by-epoch summary says, though they track the last saved epoch |
| `TrainingLoop.AbortsExactly` | models/training/pipeline.py:452-470 | Training aborts exactly when ten successive microbatches it looked at, across epochs, are non-finite, and right at the tenth |
| `TrainingLoop.SeenIsPrefix` | models/training/pipeline.py:448-523 | The microbatches looked at are the first ones, and stopping early means the loop was left or aborted |
| `TrainingLoop.StepsAreReports` | models/training/pipeline.py:448-523 | What is reported of each epoch are the window means of the microbatches up to the first after which the loop is to leave: subset done, SIGTERM arrived by a reporting one, or ten non-finite losses in succession |
| `TrainingLoop.EveryEpochWithinSubset` | models/training/pipeline.py:449-450 | No epoch takes more optimizer steps than configured |
| `TrainingLoop.ReportsAreMeans` | models/training/pipeline.py:486-501 | One loss is reported per finite synchronising microbatch: the mean of the finite losses since the one before |
| `TrainingLoop.ReportsOwnWindowExactly` | models/training/pipeline.py:427-431 | The losses averaged at a reporting microbatch are its own window's exactly if the synchronising microbatch before it was finite or left none pending |
| `TrainingLoop.SavedExactly` | models/training/pipeline.py:548-560 | Saved are exactly the due epochs among those completed and, after SIGTERM, the last one |
| `TrainingLoop.SavedAre` | models/training/pipeline.py:548-560 | An epoch is saved exactly if it ran to its end and its number plus one is a multiple of the interval, or SIGTERM ended it |
| `TrainingLoop.SavedOnce` | models/training/pipeline.py:548-557 | No epoch is saved twice and the order ascends |
| `TrainingLoop.SigtermEndsAtEpoch` | models/training/pipeline.py:522-560 | SIGTERM is flagged before an epoch's end test if and only if the run ends with that epoch by SIGTERM, and then its checkpoint is the last |
| `TrainingLoop.FlaggedExactly` | models/training/pipeline.py:522-553 | That flag is set exactly if SIGTERM arrived by a microbatch looked at or before the end test, and non-finite losses did not end the epoch first |
| `SyncDocs.ApplyBlock` | scripts/sync_docs.py:94-106 | Succeeds exactly if both markers occur with BEGIN first; a missing marker has its own error |
| `SyncDocs.OnlyTheBlockChanges` | scripts/sync_docs.py:94-106 | Text up to BEGIN and from the first END is unchanged, and the next rewrite finds the markers in the same places |
| `SyncDocs.BlockReadsBack` | scripts/sync_docs.py:103-106 | Between the markers of the result stand the notice and then the block, letter by letter |
| `SyncDocs.MarkersStay` | scripts/sync_docs.py:103-106 | With an END-free block neither notice nor joins create a marker |
| `SyncDocs.LastWriteWins` | scripts/sync_docs.py:94-106 | Rewriting with one block and then another equals rewriting with the other if and only if the first contains no END |
| `SyncDocs.Idempotent` | scripts/sync_docs.py:94-106 | Rewriting again with the same END-free block changes nothing |

## Left out

- The audit service's shutdown timeout and cancellation, which the code says may lose the batch in flight; a commit that raises after the database committed.
- AuditFlush.FlushBarrierExactly: covers calls made while the lock is free; AuditLock.FlushDuringCommitExactly covers one behind the only writer, and for a flush that queues while others run too AuditTheorems.ReturnedSettles says which records are settled.
- AuditStop.StopBarrierExactly: a stop that waits for its writer while other coroutines run is covered only by AuditTheorems.ReturnedSettles.
- AuditOrder.FirstInFirstOut: runs with a flush or overlapping calls are left out, because two consumers do reorder records.
- RateLimit.QuotaHolds: one fixed limit per run; changing a caller's tier moves it to another key, and replica clock skew is not modelled.
- Time zones in partition bounds, CURRENT_DATE changing within a job, and rows already in DEFAULT that make Postgres refuse a new partition.
- Partitions.JobsKeepSpan: speaks of months before year 10000, since later names no longer read back.
- Unreadable uploads, an unknown model and a wrong backend, which fail a request before the cache and leave no audit record; the text of cached JSON.
- A file lookup that raises in `path.exists`, such as a missing permission on a parent directory; the hash that gives a caller its position.
- Experiments.RoutingAlwaysServes: a registered empty version is looked up as "no version", so the model's version is stated for non-empty versions only.
- Loading models, backend fallback and warm-up; ONNX Runtime, FAISS, torch and Pillow internals, a corrupt FAISS file included.
- Aliasing between caller lists and the stored manifest; a manifest that parses but lacks one of its lists, which every operation refuses without writing.
- Selection.TopKIsLeading: a negative k, and an empty score vector, for which NumPy raises.
- Selection.Decode: a negative cap, for which Python slices from the end; rounding of scores and coordinates.
- CutMix.Call: sampling, including Beta with a non-positive alpha, which torch refuses; batches of zero-sized images.
- Evaluation, metrics, schedulers, gradient clipping, resuming and averaging over several processes in the training loop.
- Statistical comparison of experiment arms, calibration, drift, request routing, authentication, logging and metrics.
