# A verified model of the tiered KV-cache store

The repository keeps transformer KV-cache blocks in a memory pool and on disk: blocks are cut into segments, masked,
byte-shuffled and compressed by whatever engine is free, held in an LRU cache, evicted by a scheduler, moved between
pools by several transports, and loaded and saved around the forward passes of an inference engine. This project models
the parts of it that are hard to get right and proves what they promise, for every input, every interleaving and every
reachable state. `dafny verify dfyconfig.toml` checks all of it.

How it is built:

- Code that computes is modelled by functions, code that changes things by classes and methods whose contracts equate the
  new state with a function of the old one (`TaskQueue.Queue`, `MemCache.Mem`, `EvictLru.KVStore`, `DsaTickets.Engine`,
  `RemoteJobs.KVStoreRemote`, `ScratchFlow.KVFlow`, `IntrusiveList.List`, the array copies of `DataShuffle`, `ZipBlock`
  and `PoolCopy`).
- A protocol is a state machine: `Event`, `Enabled` and `After` give its atomic steps, `Run(ss, es)` is any execution, and
  the results are lemmas over all runs. A step is one section of code under a lock, one atomic operation, or one action of
  the environment (a hardware completion, a message arriving, a spurious wake-up).
- History fields (accepted tasks, batches, starts, finished saves) only record what happened, so that results can speak
  about whole executions; where a result rests on one, a lemma says what it holds in terms of the events.
- Besides what must never happen, the results say what each operation brings about: who holds, owns or waits for what after
  a sequence of events is stated as an exact consequence of the last event that matters (`...Since`, `...ExactlyWhen`), and a
  step that is due can always be made (`...Proceeds`, `...GoOn`).

Modules by subject:

| subject | modules |
|---|---|
| block codec | `DataShuffle`, `ZipLayout`, `ZipBlock`, `ZipRuns`, `Unzip`, `LanePlan`, `Pipeline`, `Decompress` |
| memory cache | `MemCache`, `IntrusiveList`, `DeletionGuard`, `TaskQueue`, `TaskRuns`, `Retry` |
| eviction and persistence | `EvictLru`, `EvictFence`, `Labels`, `Persistence` |
| transfers | `DsaTickets`, `DsaRuns`, `DsaBatch`, `RpcCodec`, `RemoteJobs`, `RemoteRuns`, `ScratchFlow`, `PoolGeometry`, `RowCopy`, `PoolCopy` |
| threads and connector | `ThreadPool`, `Connector`, `SaveRanges` |
| shared | `Wrappers`, `Arith`, `Sets`, `Buffers` |

Where the code and its documentation differ, or a promise holds only under a condition, the code is modelled as it is and
the exact condition is proved:

- During a compression run the tensor is as it was exactly as long as every payload parked so far equals the bytes of the
  input it was parked over (`ZipRuns.UnchangedExactlyWhen`). With one segment nothing is ever parked, with more every
  finished run parks (`ZipRuns.FinishedRunsPark`, `ZipRuns.SomeRunParks`). KVFlow hands the codec KV blocks in place in CPU
  mode when neither shuffling nor truncation is on (iaxl/kvflow/flow.py:105-107), a condition that does not ask for one
  segment.
- "High bytes first" holds for the word loop of shuffle_copy exactly when half the size is even or the buffer is shorter
  than 4 bytes (`DataShuffle.HighBytesFirst`). Shuffling twice is the identity for every size.
- A finished decompression has placed a segment exactly if some worker takes its kind (`Decompress.PlacedExactlyWhen`), and
  restores the masked tensor exactly if the destination already agreed with it on the other segments
  (`Decompress.PlannedRunsDecompress`). The checks before the pipeline (iaxl/csrc/kv_zip/kv_zip.cpp:465-468) look at the
  enable flags and not at the instance counts, which may be zero: they let through only what is served exactly if no enabled
  group of backends is without a worker (`Decompress.ChecksSufficeExactlyWhen`). With IAXL_IAA_ZIP_ENABLE=1,
  IAXL_IAA_INSTANCE_NUM=0 and one CPU worker a call returns normally with every IAA segment missing
  (`Decompress.ZeroInstancesSkip`). Likewise a finished compression has completed its segments exactly if there is a worker
  (`Decompress.CompressesAllExactlyWhen`).
- The retry of a load whose keys were all enqueued before it succeeds exactly if each of them was not evicted since its last
  put or load, or is on disk: its row says persisted and its file exists (`Retry.RetrySucceeds`). Otherwise it aborts. A key
  that was persisted with its row in the table stays on disk until its group is recorded again
  (`Retry.PersistedIsRetried`); which bytes come back is the subject of `Persistence`. Besides, a first miss aborts when the
  queue is shutting down, because the resubmission is rejected, and a get aborts when a row says persisted and the file of
  the tensor was never written (`Retry.OnlyTheseFaults`).
- A waiter that polls a slot outside the lock has a status to see or a batch in flight exactly unless the latest submission
  into that slot was refused (`DsaRuns.PollEndsExactlyUnlessRefused`): the refused submission has reset the completion byte,
  and the waiter polls until another batch goes there or the time-out aborts (`DsaRuns.RefusedPollSeesNothing`). The comment
  at iaxl/csrc/dsa_gd/dsa_memcpy.c:686-692 calls the reuse of a slot harmless.
- With a clock that does not go back, evict_lru takes exactly the rows of one decision made at its last reading of the clock
  (`EvictLru.BatchesEqualOneDecision`), which with a fixed lease bound is the decision it stands for; ties make no
  difference. If the clock goes back, it takes the rows of one that asks for at least that many and at most as many as at
  any reading (`EvictLru.KVStore.EvictLru`). The size of a decision exceeds max(min(max, expired), min(min, max, resident)) exactly when rows with equal
  times straddle that position (`EvictLru.DecisionExceeds`), as in `EvictLru.TiesOvershoot`.
- Persisting a group makes it durable exactly when its row is in the table at that moment, because mark_persisted updates
  and does not insert (`Persistence.PersistMakesDurable`, `Persistence.UnrecordedIsLost`). A durable group that is put
  again and evicted before its row is submitted comes back with its old bytes (`Persistence.OldBytesUntilRecorded`).
- A request packed by rpc.py is unpacked unchanged exactly if no block hash ends in NUL and, when there are hashes, one is
  not empty (`RpcCodec.BlocksRoundTrip`): hashes travel as NUL-padded ASCII records of the longest one's width.
- Labels whose chunk ids have no two-character piece "." or ".." have one file only if they are the same label
  (`Labels.DotFreeFilesDiffer`); block hashes never contain a dot. For a label in general: another well-formed label with a
  chunk id no longer than its own shares its file exactly when its chunk id has such a piece
  (`Labels.SharedExactlyWithDots`), and with longer chunk ids every label's file is shared (`Labels.DetourShares`). A
  persisted group survives the persisting of another group exactly unless both have one directory and disagree on a file
  (`Persistence.DurableStays`).

## Model

| member | source | states |
|---|---|---|
| DataShuffle.MaskedCopy | iaxl/csrc/kv_zip/data_shuffle.h:20-32 | the destination is the source with every byte ANDed with the mask byte of its parity, odd tail included |
| DataShuffle.ShuffleCopy | iaxl/csrc/kv_zip/data_shuffle.h:34-62 | from two source halves, the destination is the masked whole under the fixed byte permutation, whatever the parity of the halves |
| DataShuffle.MixHalves | iaxl/csrc/kv_zip/data_shuffle.h:45-51 | the word loop writes exactly the permuted bytes of its rounds |
| DataShuffle.ShuffleInvolutive | iaxl/csrc/kv_zip/data_shuffle.h:34-36 | shuffling the result again restores the input, for every size |
| DataShuffle.SourceInvolutive | iaxl/csrc/kv_zip/data_shuffle.h:34-62 | the byte permutation is its own inverse and stays inside the buffer |
| DataShuffle.HighBytesFirst | iaxl/csrc/kv_zip/data_shuffle.h:34-36 | exactly when the first half holds only high bytes |
| DataShuffle.MaskIdempotent | iaxl/csrc/kv_zip/data_shuffle.h:20-32 | masking what was masked changes nothing |
| DataShuffle.FullMaskKeeps | iaxl/csrc/kv_zip/data_shuffle.h:22-25 | the all-ones mask is a plain copy |
| DataShuffle.MaskedBits | iaxl/csrc/kv_zip/data_shuffle.h:20-32 | a bit is kept exactly if the mask byte of its parity has it |
| DataShuffle.ShuffledBytes | iaxl/csrc/kv_zip/data_shuffle.h:47-56 | the persisted byte order, byte by byte: which two bytes the word loop exchanges, and that all others stay |
| ZipLayout.RegionFits | iaxl/csrc/kv_zip/kv_zip.cpp:99-107 | every segment's region lies inside the tensor, follows the previous one, and its compressed part is no longer than it |
| ZipLayout.RegionsDisjoint | iaxl/csrc/kv_zip/kv_zip.cpp:99-101 | regions of different segments do not overlap |
| ZipLayout.MadeHeadersAreValid | iaxl/csrc/kv_zip/kv_zip.cpp:79-96 | every header the code makes is consistent and no segment boundary splits a 16-bit element |
| ZipLayout.FitsUint32 | iaxl/csrc/kv_zip/kv_zip.cpp:79-111 | payload start plus tensor size never overflows 32 bits for the sizes the code accepts |
| ZipLayout.SegmentsDetermine | iaxl/csrc/kv_zip/kv_zip.cpp:99-101 | the segments cover the tensor: equal segments make equal tensors |
| ZipLayout.HeaderCuts | iaxl/csrc/kv_zip/kv_zip.cpp:79-102 | a tensor is cut into as many segments of the configured size as it holds whole, the last with the rest, or into one |
| ZipBlock.PrepareInto | iaxl/csrc/kv_zip/kv_zip.cpp:359-372 | the input buffer of a backend holds the masked, possibly shuffled segment |
| ZipBlock.CompletionIsGood | iaxl/csrc/kv_zip/kv_zip.cpp:373-404 | a finished segment is stored exactly if its stream is no shorter than what was compressed, with the exact length and flag; entry and payload decode to its masked bytes |
| ZipBlock.TotalLength | iaxl/csrc/kv_zip/kv_zip.cpp:330-351 | the first loop of assemble computes the exact payload size |
| ZipBlock.AssembleBlock | iaxl/csrc/kv_zip/kv_zip.cpp:330-351 | the buffer holds the payloads one after the other and the table their offsets |
| ZipBlock.AssemblyIsGood | iaxl/csrc/kv_zip/kv_zip.cpp:330-351 | a block assembled from good payloads is good: every entry finds its own payload |
| ZipBlock.AssemblySize | iaxl/csrc/kv_zip/kv_zip.cpp:330-351 | payloads together are no longer than the tensor |
| ZipBlock.OffsetsCountFromTheStart | iaxl/csrc/kv_zip/kv_zip.cpp:109-110 | in the buffer of header, table and payloads, 20 bytes and 12 per entry, every offset of the table leads to its own payload |
| ZipBlock.PreparedByte | iaxl/csrc/kv_zip/kv_zip.cpp:365-369 | where every byte of a prepared segment comes from |
| ZipRuns.RunsAreSafe | iaxl/csrc/kv_zip/kv_zip.cpp:359-404 | the invariant of every interleaving: who is counted in pending, what is parked where, who may assemble |
| ZipRuns.UnreadIsIntact | iaxl/csrc/kv_zip/kv_zip.cpp:359-404 | a segment not read yet still has its original bytes although others park over the tensor |
| ZipRuns.OneAssembler | iaxl/csrc/kv_zip/kv_zip.cpp:373-404 | no run assembles a block twice |
| ZipRuns.AssemblyMoment | iaxl/csrc/kv_zip/kv_zip.cpp:330-404 | when a segment assembles, all others have left with their payload parked intact in their own region, and the block is good and bounded |
| ZipRuns.EveryRunMakesOneBlock | iaxl/csrc/kv_zip/kv_zip.cpp:373-404 | once all callbacks returned, exactly one block was made and it is good |
| ZipRuns.NothingBlocks | iaxl/csrc/kv_zip/kv_zip.cpp:359-404 | every unfinished segment has an enabled step |
| ZipRuns.OneSegmentIsUntouched | iaxl/csrc/kv_zip/kv_zip.cpp:373-404 | a tensor of one segment is never written |
| ZipRuns.UnparkedIsIntact | iaxl/csrc/kv_zip/kv_zip.cpp:373-404 | a region holds its original bytes until its own segment parks |
| ZipRuns.UnchangedExactlyWhen | iaxl/csrc/kv_zip/kv_zip.cpp:373-404 | in every state of every run the tensor is unchanged exactly if every payload parked so far equals the input bytes under it |
| ZipRuns.FinishedRunsPark | iaxl/csrc/kv_zip/kv_zip.cpp:373-404 | a finished run has parked exactly if there is more than one segment |
| ZipRuns.SomeRunParks | iaxl/csrc/kv_zip/kv_zip.cpp:373-404 | some run parks exactly if there is more than one segment, for any stream of segment 0 |
| ZipRuns.ParkingOverwrites | iaxl/csrc/kv_zip/kv_zip.cpp:373-404 | a stream that saves space and does not begin like the tensor makes a run that changes the tensor |
| Unzip.AnyOrder | iaxl/csrc/kv_zip/kv_zip.cpp:440-461 | after any routed placements, placed segments hold their masked bytes and the others are untouched |
| Unzip.GoodBlockDecompresses | iaxl/csrc/kv_zip/kv_zip.cpp:407-498 | any complete order of placements restores the masked tensor over any destination |
| Unzip.RoundTrip | iaxl/csrc/kv_zip/kv_zip.cpp:270-498 | for every size, segment size, flags, mask, interleaving, assignment to backends and streams: decompressing what compression produced yields the input masked at absolute parity |
| Unzip.StoredRoundTrip | iaxl/csrc/kv_zip/kv_zip.cpp:287-303 | the uncompressed path yields the input itself |
| Unzip.PlaceInto | iaxl/csrc/kv_zip/kv_zip.cpp:440-455 | placing a segment undoes its preparation in the destination buffer |
| Unzip.PlacedExactlyWhen | iaxl/csrc/kv_zip/kv_zip.cpp:440-489 | for any block, good or not: exactly when a placement does not abort |
| LanePlan.PlanLanes | iaxl/csrc/kv_zip/kv_zip.cpp:175-213 | each slot once, every thread has a lane, a worker's slots share a thread when threads do not exceed workers; the order of the lanes and the thread of each |
| Pipeline.EveryItemOnce | iaxl/csrc/kv_zip/kv_zip.cpp:215-258 | once all lanes retired, every item was submitted and completed exactly once, on a lane of its cursor |
| Pipeline.NoLaneNoItem | iaxl/csrc/kv_zip/kv_zip.cpp:215-258 | an item whose cursor has no lane is never submitted |
| Pipeline.ItemsReachTheirBackend | iaxl/csrc/kv_zip/kv_zip.cpp:470-483 | items of the first cursor complete once on IAA lanes, the others once on other lanes, given such a lane |
| Pipeline.ClaimsInOrder | iaxl/csrc/kv_zip/kv_zip.cpp:219-252 | a lane takes the items of its cursor in order and leaves exactly when all of them were submitted |
| Pipeline.LanesGoOn | iaxl/csrc/kv_zip/kv_zip.cpp:219-252 | a lane that has not left can always make a step |
| Decompress.SortSegments | iaxl/csrc/kv_zip/kv_zip.cpp:414-436 | sorts the segments of a block by the flags of its table |
| Decompress.PlacedExactlyWhen | iaxl/csrc/kv_zip/kv_zip.cpp:457-497 | every finished call over the planned lanes places a segment exactly if some worker takes its kind |
| Decompress.CompleteExactlyWhen | iaxl/csrc/kv_zip/kv_zip.cpp:457-497 | so its placements, each on a backend that may decode the segment, are complete exactly if every kind that occurs is served |
| Decompress.EachSegmentAfterwards | iaxl/csrc/kv_zip/kv_zip.cpp:440-497 | afterwards a segment is masked if its kind is served and as the destination had it if not |
| Decompress.PlannedRunsDecompress | iaxl/csrc/kv_zip/kv_zip.cpp:407-498 | any destination becomes the masked tensor of a good block exactly if it agreed with it on the segments that no worker takes |
| Decompress.ServedIsChecked | iaxl/csrc/kv_zip/kv_zip.cpp:465-468 | the checks reject nothing that could be served |
| Decompress.ChecksSufficeExactlyWhen | iaxl/csrc/kv_zip/kv_zip.cpp:178-180 | they let through only blocks that are served exactly if IAA, when enabled, has instances and QAT and CPU, when one is enabled, have an enabled one with instances |
| Decompress.ZeroInstancesSkip | iaxl/csrc/common/envs.c:68-74 | the configuration that passes the checks and never places an IAA segment |
| Decompress.CompressesAllExactlyWhen | iaxl/csrc/kv_zip/kv_zip.cpp:353-358 | a finished compression pipeline completed all segments exactly if there is a worker or no segment |
| Decompress.EverySegmentOnce | iaxl/csrc/kv_zip/kv_zip.cpp:457-497 | no segment is placed twice |
| DeletionGuard.RunsAreSafe | iaxl/csrc/kv_pool/mem.cpp:200-219 | in every interleaving the guard count is the number of active readers and what they hold is cached or behind the guard |
| DeletionGuard.HeldIsNeverFreed | iaxl/csrc/kv_pool/mem.cpp:264-293 | no buffer held by an active guard holder has been freed, whatever readers arrive meanwhile |
| DeletionGuard.FreeingHitsNoHolder | iaxl/csrc/kv_pool/mem.cpp:282-291 | at the step that frees a batch, no active reader holds a buffer of it |
| DeletionGuard.WaitersAreWoken | iaxl/csrc/kv_pool/mem.cpp:202-219 | a sleeping free task with no reader left has a notification coming |
| DeletionGuard.CachedSince | iaxl/csrc/kv_pool/mem.cpp:631-735 | a buffer stays under its key until the key is evicted or the buffer replaced |
| DeletionGuard.BatchHolds | iaxl/csrc/kv_pool/mem.cpp:264-281 | evict_labels hands exactly the buffers cached under its keys to its free task, for good |
| DeletionGuard.FreedExactlyByItsTask | iaxl/csrc/kv_pool/mem.cpp:282-293 | an evicted buffer is given back exactly by the free task of its eviction |
| DeletionGuard.OverwrittenIsFreed | iaxl/csrc/kv_pool/mem.cpp:650-662 | a replaced buffer is given back |
| DeletionGuard.HoldsWhatItGot | iaxl/csrc/torch_ext/zip.cpp:46-91 | a reader holds exactly what was cached under its keys when it asked, until it releases the guard |
| DeletionGuard.CountedWhileGuarding | iaxl/csrc/kv_pool/mem.cpp:200-207 | a reader counts exactly from its acquire to its release |
| DeletionGuard.LastReleaseNotifies | iaxl/csrc/kv_pool/mem.cpp:202-207 | exactly the last reader to leave notifies |
| DeletionGuard.FreeProceeds | iaxl/csrc/kv_pool/mem.cpp:213-219 | without active readers every evicted batch that is not freed has a step that takes its free task forward |
| DeletionGuard.NoneGoesBack | iaxl/csrc/kv_pool/mem.cpp:213-219 | and no step takes it back |
| TaskQueue.Queue.Init | iaxl/csrc/include/task_queue.h:40-54 | starts once, is idempotent, refuses to restart |
| TaskQueue.Queue.Submit | iaxl/csrc/include/task_queue.h:59-80 | appends to its level exactly when running and the priority is valid, with the two errors otherwise |
| TaskQueue.Queue.SetBundlesPriority | iaxl/csrc/include/task_queue.h:83-102 | every waiting task tagged with one of the ids leaves a less urgent level for the tail of the target, in order, every other one stays; the count is exact |
| TaskQueue.Queue.SortPriorityLevel | iaxl/csrc/include/task_queue.h:105-110 | one level becomes its stable sort, the others stay |
| TaskQueue.Queue.TakeOrExit | iaxl/csrc/include/task_queue.h:189-208 | takes the front of the most urgent non-empty level; exits only when stopping and empty |
| TaskQueue.Queue.BeginShutdown | iaxl/csrc/include/task_queue.h:112-128 | the state changes of the first section of shutdown and who has to join |
| TaskQueue.SortIsStable | iaxl/csrc/include/task_queue.h:104-110 | the sort is ordered by key and a permutation |
| TaskQueue.SortKeepsPick | iaxl/csrc/include/task_queue.h:104-110 | tasks with one key keep their order under the sort |
| TaskQueue.StableSortIsUnique | iaxl/csrc/include/task_queue.h:104-110 | these properties determine the result |
| TaskQueue.MoveOf | iaxl/csrc/include/task_queue.h:83-102 | after a move a waiting task is in the target exactly if it was less urgent and tagged with one of the ids, else where it was |
| TaskQueue.MoveSplits | iaxl/csrc/include/task_queue.h:87-101 | every less urgent level is split in order into what leaves and what stays |
| TaskQueue.MoveAppends | iaxl/csrc/include/task_queue.h:87-101 | what leaves follows the old tasks of the target, level by level |
| TaskRuns.StepKeepsCounted | iaxl/csrc/include/task_queue.h:59-110 | every operation keeps accepted = started + waiting |
| TaskRuns.RunsAreFifo | iaxl/csrc/include/task_queue.h:56-110 | untagged tasks of one level and sort key start in the order of acceptance, under every submit, move and sort |
| TaskRuns.StoppedMeansAllDone | iaxl/csrc/include/task_queue.h:112-138 | when the queue has stopped, every accepted task was executed exactly once and nothing else was |
| TaskRuns.NeverTwice | iaxl/csrc/include/task_queue.h:189-212 | no task is started more often than accepted, accepted tasks being distinct |
| TaskRuns.NoLostWakeup | iaxl/csrc/include/task_queue.h:193-199 | a worker asleep with work to do has a notification coming that wakes it |
| TaskRuns.EarlierIsDone | iaxl/csrc/include/task_queue.h:56-110 | of two untagged tasks of one level and key, the earlier one has finished while the later one runs |
| Retry.RetryFinds | iaxl/csrc/kv_pool/mem.cpp:349-441 | when a load's retry runs, a key enqueued before the load is cached exactly unless evicted since its last put or load, and found by get exactly if cached or on disk |
| Retry.RetrySucceeds | iaxl/csrc/torch_ext/zip.cpp:46-98 | a retry whose keys were enqueued before the load succeeds, with all of them cached, exactly if each was not evicted since or is on disk, and aborts otherwise |
| Retry.StaysOnDisk | iaxl/csrc/kv_pool/record.cpp:112-137 | a key on disk stays there exactly unless its group is recorded again |
| Retry.PersistedStays | iaxl/csrc/kv_pool/mem.cpp:759-809 | over every run: persisted with its row in the table, a key is on disk until its group is recorded again |
| Retry.PersistedIsRetried | iaxl/csrc/kv_pool/mem.cpp:361-441 | so a retry succeeds whatever was evicted, if the evicted keys were persisted that way |
| Retry.OnlyTheseFaults | iaxl/csrc/torch_ext/zip.cpp:46-98 | the complete list of reasons for which a load aborts |
| Retry.ZipPutsAll | iaxl/csrc/torch_ext/zip.cpp:118-147 | a compress task puts all its keys |
| Retry.FirstAttempt | iaxl/csrc/torch_ext/zip.cpp:46-84 | exactly when a first attempt ends the load, counts as a miss, or aborts |
| Retry.GetCaches | iaxl/csrc/kv_pool/mem.cpp:361-441 | a get that does not abort caches exactly the keys it asked for that are on disk |
| Retry.MissIsResubmitted | iaxl/csrc/torch_ext/zip.cpp:58-78 | a missed load is resubmitted once with its keys as an untagged task of the lowest level, or aborts when the queue does not run |
| Retry.TaskProceeds | iaxl/csrc/torch_ext/zip.cpp:38-98 | a running task always has a step to make, and its return finishes it |
| Retry.CachedSince | iaxl/csrc/kv_pool/mem.cpp:631-735 | a key that was put or loaded is cached until it is evicted |
| Retry.EvictedSince | iaxl/csrc/kv_pool/mem.cpp:264-281 | an evicted key is not cached until it is put or loaded |
| Retry.RecordedSince | iaxl/csrc/kv_pool/record.cpp:112-137 | a row stays until a decision deletes it while it is not persisted |
| Retry.DeletedSince | iaxl/csrc/kv_pool/record.cpp:202-228 | a deleted row stays away until it is submitted again |
| EvictFence.RunsAreSafe | iaxl/kvstore/kvstore.py:373-398 | at most one decision is in flight, _evicting is its keys, all earlier ones are complete on every rank |
| EvictFence.HasIsFenced | iaxl/kvstore/kvstore.py:341-348 | when has() answers for a key, every rank has dropped every earlier decision about it since it was made, and holds the key only if it was put again |
| EvictFence.NoDropHitsLaterData | iaxl/csrc/kv_pool/mem.cpp:264-281 | every drop of a decision comes before any later answer about its keys, so it never hits data put on the strength of one |
| EvictFence.OffMeansNoDecision | iaxl/kvstore/kvstore.py:195-206 | from the switch-off on nothing is decided until somebody switches on |
| EvictFence.OffMeansQuiet | iaxl/kvstore/kvstore.py:195-206 | once the switch-off returned, nothing is in flight and no rank loses anything until re-enabled |
| EvictFence.DropsOnce | iaxl/kvstore/kvstore.py:388-393 | no rank drops a batch twice |
| EvictFence.HeldExactlyWhenPut | iaxl/csrc/kv_pool/mem.cpp:264-281 | a rank holds a key exactly if some put of it has survived every drop since |
| EvictFence.LaterDataStays | iaxl/kvstore/kvstore.py:341-348 | data put after an answer stays until a decision made after that answer |
| EvictFence.LastSwitchDecides | iaxl/kvstore/kvstore.py:195-206 | decisions are on or off as the last switch says |
| EvictFence.CallerWaits | iaxl/kvstore/kvstore.py:202-204 | a caller of the switch waits exactly until its return |
| EvictFence.WaitsForDecisions | iaxl/kvstore/kvstore.py:341-376 | has(), decisions and the switch wait exactly for the decisions not cleared: has() for those with its keys, the others for all |
| EvictFence.DecisionProceeds | iaxl/kvstore/kvstore.py:388-397 | a decision in flight can always be dropped further or cleared |
| EvictLru.Cut | iaxl/csrc/kv_pool/record.cpp:173-196 | the largest of the oldest `limit` times of the window, with ties, the old cut when there is none |
| EvictLru.Record.Submit | iaxl/csrc/kv_pool/record.cpp:112-137 | inserts or replaces every key unpersisted with its own stamp, leaves the others, and keeps time stamps distinct |
| EvictLru.Record.Evict | iaxl/csrc/kv_pool/record.cpp:165-228 | keys and new cut of one decision; the cut never moves back; a row is gone exactly if it is in the cut's range and not persisted, and unchanged otherwise |
| EvictLru.CutExceeds | iaxl/csrc/kv_pool/record.cpp:173-196 | a cut takes more than its limit exactly when rows with equal times straddle the limit |
| EvictLru.DecisionIsLeast | iaxl/csrc/kv_pool/record.cpp:162-206 | a decision takes the fewest oldest resident rows, closed under equal times, that are at least max(min(max, expired), min(min, max, resident)) many |
| EvictLru.DecisionExceeds | iaxl/csrc/kv_pool/record.cpp:171-206 | it takes more exactly when equal times straddle that position, and never with distinct times |
| EvictLru.KVStore.EvictLru | iaxl/kvstore/kvstore.py:368-398 | whatever others do to the table between its turns, every turn is a decision with the limits left, from cut to cut, on what they made of the table the turn before left; it ends when the maximum is reached, a turn takes nothing, or the switch is off, and what was broadcast is what the turns took; when nobody else touches it, the rows gone are those of one decision that asks for at least what it does at the last clock reading and at most what it does at any, hence exactly the former if the clock does not go back, and exactly the unpersisted ones leave the table |
| EvictLru.LastReadingDecides | iaxl/kvstore/kvstore.py:373-398 | with a clock that does not go back, the rows gone are those asked for at its last reading |
| EvictLru.BatchesEqualOneDecision | iaxl/kvstore/kvstore.py:368-398 | the loop takes exactly the rows of the unbatched decision, with or without ties |
| EvictLru.LeasedOnlyWhenForced | iaxl/kvstore/kvstore.py:369-370 | a leased row goes only when the forced minimum is more than all expired rows |
| EvictLru.LeasedOnlyBelowMinimum | iaxl/kvstore/kvstore.py:373-398 | in the loop, only in a turn that began with fewer than the minimum taken, whatever others do to the table |
| EvictLru.OldestFirst | iaxl/csrc/kv_pool/record.cpp:173-206 | every turn takes the oldest rows then resident |
| EvictLru.TiesOvershoot | iaxl/csrc/kv_pool/record.cpp:171-178 | a table on which the limit is exceeded |
| EvictLru.TurnLimits | iaxl/kvstore/kvstore.py:380-384 | a turn asks for at most 16384 rows within what is left of both limits |
| EvictLru.StampsAre | iaxl/csrc/kv_pool/record.cpp:116-128 | the rows of one submission are stamped a step apart |
| DsaTickets.Engine.ReapDone | iaxl/csrc/dsa_gd/dsa_memcpy.c:553-570 | frees every finished slot of one work queue and records the lowest failed ticket |
| DsaTickets.Engine.FindPending | iaxl/csrc/dsa_gd/dsa_memcpy.c:577-588 | reaps and returns the first slot still in flight up to the ticket |
| DsaTickets.Engine.SubmitSlot | iaxl/csrc/dsa_gd/dsa_memcpy.c:596-619 | fills the first free slot, or none; a refused batch leaves the slot free |
| DsaRuns.RefillOnlyAfterCompletion | iaxl/csrc/dsa_gd/dsa_memcpy.c:596-619 | a slot is refilled only after everything submitted into it completed |
| DsaRuns.EveryEntryOnce | iaxl/csrc/dsa_gd/dsa_memcpy.c:640-669 | every entry of a returned call is in exactly one batch of its ticket, within the hardware's batch limit |
| DsaRuns.WaitTellsTheTruth | iaxl/csrc/dsa_gd/dsa_memcpy.c:671-695 | a returning wait(t): all batches up to t completed; 0 exactly if all succeeded, -1 exactly if one failed |
| DsaRuns.WaitCoversTheCall | iaxl/csrc/dsa_gd/dsa_memcpy.c:640-695 | a wait that returns 0 has copied every entry of every call up to its ticket |
| DsaRuns.PollEndsExactlyUnlessRefused | iaxl/csrc/dsa_gd/dsa_memcpy.c:671-695 | at any moment after a look found a slot, it shows a status or has a batch in flight exactly unless the latest submission into it was refused |
| DsaRuns.RefusedPollSeesNothing | iaxl/csrc/dsa_gd/dsa_memcpy.c:596-619 | a run in which the polled slot is reset and refused, with nothing in flight |
| DsaRuns.PerBatchIs | iaxl/csrc/dsa_gd/dsa_memcpy.c:656-658 | the batch size is the smallest that spreads the entries over all work queues, or the limit |
| DsaRuns.FullBatches | iaxl/csrc/dsa_gd/dsa_memcpy.c:660-666 | every batch of a call is full, except the one that ends it |
| DsaRuns.QueuesInTurn | iaxl/csrc/dsa_gd/dsa_memcpy.c:661 | the work queues are claimed in turn |
| DsaRuns.ClaimsPerBatch | iaxl/csrc/dsa_gd/dsa_memcpy.c:660-666 | once per batch |
| DsaRuns.CallEndsExactlyWhen | iaxl/csrc/dsa_gd/dsa_memcpy.c:660-668 | a call returns its ticket exactly when every entry is in a batch, and ends before exactly when a batch is refused |
| DsaRuns.TryReaps | iaxl/csrc/dsa_gd/dsa_memcpy.c:596-619 | a look at a work queue frees its finished slots |
| DsaBatch.RunThread | iaxl/csrc/dsa_gd/dsa_memcpy.c:497-544 | a thread submits tid, tid + n, ... until a refusal or the end, waits for each submitted batch exactly once in any completion order, and reports success exactly if nothing was refused and all succeeded |
| DsaBatch.SubmitKeeps | iaxl/csrc/dsa_gd/dsa_memcpy.c:510-528 | a submission goes into a free slot: free and busy slots stay a partition of the thread's slots |
| DsaBatch.CompleteKeeps | iaxl/csrc/dsa_gd/dsa_memcpy.c:533-541 | a completion moves one slot from the busy to the free stack, with its batch |
| DsaBatch.StrideHas | iaxl/csrc/dsa_gd/dsa_memcpy.c:503-528 | a thread's batches are exactly those of its residue class, each once |
| DsaBatch.EntryBatch | iaxl/csrc/dsa_gd/dsa_memcpy.c:494-518 | every entry is in exactly one batch, and that batch exists |
| MemCache.TotalBytes | iaxl/csrc/kv_pool/mem.cpp:102-107 | the sum of a group's buffer sizes |
| MemCache.Mem.PutOne | iaxl/csrc/kv_pool/mem.cpp:631-735 | the label holds the new bytes and every other label what it held; the group moves to the back of the LRU list and is unpersisted; null is refused; map, lists and counters agree |
| MemCache.Mem.GetOne | iaxl/csrc/kv_pool/mem.cpp:737-757 | returns exactly the cached bytes and touches the group on a hit only |
| MemCache.Mem.Remove | iaxl/csrc/kv_pool/mem.cpp:558-572 | unlinks one group from map, both lists and counters and returns its bytes |
| MemCache.Mem.EvictLabels | iaxl/csrc/kv_pool/mem.cpp:264-281 | removes exactly the listed groups that are there |
| MemCache.Mem.MarkPersisted | iaxl/csrc/kv_pool/mem.cpp:502-514 | flags the group and takes it off the unpersisted list |
| MemCache.Mem.EvictToSize | iaxl/csrc/kv_pool/mem.cpp:866-883 | removes exactly the shortest oldest prefix of the LRU list that meets the target |
| MemCache.Mem.Clear | iaxl/csrc/kv_pool/mem.cpp:619-628 | empties everything |
| MemCache.PutKeeps | iaxl/csrc/kv_pool/mem.cpp:631-735 | a put keeps LRU order by last access, the unpersisted list and the true byte and entry sums |
| MemCache.GetKeeps | iaxl/csrc/kv_pool/mem.cpp:742-757 | so does a hit |
| MemCache.RemoveKeeps | iaxl/csrc/kv_pool/mem.cpp:558-572 | so does a removal |
| MemCache.MarkKeeps | iaxl/csrc/kv_pool/mem.cpp:502-514 | so does marking |
| MemCache.BytesWithout | iaxl/csrc/kv_pool/mem.cpp:102-107 | the byte sum of a group does not depend on the order of its entries |
| MemCache.StoredReplaces | iaxl/csrc/kv_pool/mem.cpp:631-735 | after a put the label holds the new bytes, every other label what it held, and only the group is touched |
| MemCache.WithoutAt | iaxl/csrc/kv_pool/mem.cpp:885-894 | unlinking a group keeps the order of the others |
| MemCache.PendingInOrder | iaxl/csrc/kv_pool/mem.cpp:631-735 | groups wait for their save in the order of their first put |
| IntrusiveList.List.PushBack | iaxl/csrc/kv_pool/mem.cpp:896-901 | the pointer writes append the node to the circular list |
| IntrusiveList.List.Remove | iaxl/csrc/kv_pool/mem.cpp:885-894 | they unlink exactly that node; an unlinked node is left alone |
| Labels.GroupKeyRoundTrip | iaxl/csrc/include/kv_pool.h:134-166 | parse_group_key undoes make_group_key |
| Labels.ParsedGroupKey | iaxl/csrc/include/kv_pool.h:134-166 | it accepts exactly what make_group_key makes |
| Labels.FullLabelRoundTrip | iaxl/csrc/include/kv_pool.h:148-184 | parse_full_label undoes make_full_label |
| Labels.ParsedFullLabel | iaxl/csrc/include/kv_pool.h:148-184 | it accepts exactly what make_full_label makes |
| Labels.PathInjective | iaxl/csrc/include/kv_pool.h:200-210 | different labels have different paths |
| Labels.FilesAreNotDirectories | iaxl/csrc/kv_pool/storage.cpp:29-36 | no label's file is a directory of another's path |
| Labels.PathIsLiteral | iaxl/csrc/include/kv_pool.h:200-210 | the path resolves to itself exactly when the chunk id has no dot piece |
| Labels.DotFreeFilesDiffer | iaxl/csrc/include/kv_pool.h:200-210 | labels without dot pieces have one file exactly if they are the same label |
| Labels.SharedExactlyWithDots | iaxl/csrc/include/kv_pool.h:127-210 | a label shares its file with another whose chunk id is no longer exactly when its chunk id has a dot piece |
| Labels.DetourShares | iaxl/csrc/include/kv_pool.h:127-210 | with longer chunk ids every label's file is shared |
| Labels.DotsCollide | iaxl/csrc/include/kv_pool.h:127-132 | two valid labels with one file |
| Labels.PieceAt | iaxl/csrc/include/kv_pool.h:204-207 | directory i is characters 2 * i and 2 * i + 1 of the chunk id |
| Persistence.FilesDiffer | iaxl/csrc/kv_pool/storage.cpp:29-66 | two keys have one file exactly if their groups have one directory and their tensor keys are the same |
| Persistence.DotFreeDirsDiffer | iaxl/csrc/include/kv_pool.h:200-210 | groups without dot pieces never share a directory |
| Persistence.PersistMakesDurable | iaxl/csrc/kv_pool/mem.cpp:759-809 | persisting makes a group durable exactly when its row exists |
| Persistence.DurableStays | iaxl/csrc/kv_pool/mem.cpp:759-864 | an operation that puts nothing to a durable group keeps it durable exactly unless it persists a group of the same directory with other bytes; eviction by any route does |
| Persistence.PersistedComesBack | iaxl/csrc/kv_pool/mem.cpp:361-441 | for every well-formed label: a recorded, persisted group is returned byte for byte by any later get when nothing was put to it and no group of its directory wrote over its files |
| Persistence.DotFreeComesBack | iaxl/csrc/kv_pool/mem.cpp:361-441 | among groups without dot pieces, whenever nothing was put to it in between |
| Persistence.UnrecordedIsLost | iaxl/csrc/kv_pool/record.cpp:230-259 | persisted before its row was submitted, a group is lost on eviction |
| Persistence.OldBytesUntilRecorded | iaxl/csrc/kv_pool/mem.cpp:361-441 | put again and evicted before its row is submitted, a durable group comes back with its old bytes; afterwards it misses |
| Persistence.PutThenLook | iaxl/csrc/kv_pool/mem.cpp:631-735 | a put decides what is found under its label and nothing else |
| Persistence.LastPutWins | iaxl/csrc/kv_pool/mem.cpp:737-757 | over every run: until the label is put again or its group evicted, a look finds the bytes of the last put |
| Persistence.GetKeepsAnswers | iaxl/csrc/kv_pool/mem.cpp:361-441 | a get changes no answer; what it finds is cached, and a group loaded from its files need not be saved again |
| Persistence.EvictedSince | iaxl/csrc/kv_pool/mem.cpp:558-572 | an evicted group stays out of the cache until it is put or loaded |
| Persistence.RowSince | iaxl/csrc/kv_pool/record.cpp:112-160 | a row says when its group was last submitted or touched |
| Persistence.PrunedSince | iaxl/csrc/kv_pool/record.cpp:202-228 | a decision deletes exactly the rows of its groups that are not persisted |
| RemoteJobs.KVStoreRemote.MarkTask | iaxl/remote_pool/kvstore_remote.py:172-180 | marks a layer once and drops the entry with the last one |
| RemoteJobs.KVStoreRemote.Receive | iaxl/remote_pool/kvstore_remote.py:165-170 | keeps a push that beats its job id, marks the others |
| RemoteJobs.KVStoreRemote.Register | iaxl/remote_pool/kvstore_remote.py:122-127 | registers the job with all early pushes replayed, whatever their order |
| RemoteJobs.MarkTwice | iaxl/remote_pool/kvstore_remote.py:172-180 | a second mark changes nothing |
| RemoteRuns.RemainingIsUndone | iaxl/remote_pool/kvstore_remote.py:122-180 | the counter of a pending job is the number of its undone tasks, and positive |
| RemoteRuns.EachLayerMarkedOnce | iaxl/remote_pool/kvstore_remote.py:165-180 | no callback fails with a missing key and no layer is marked twice |
| RemoteRuns.NoPushIsLost | iaxl/remote_pool/rpc.py:332-366 | the completion of every layer is in exactly one place: daemon, network, early set or marked |
| RemoteRuns.AllDeliveredMeansAllDone | iaxl/remote_pool/kvstore_remote.py:148-180 | when everything was delivered all tasks are done and both tables are empty |
| RemoteRuns.ServedJob | iaxl/remote_pool/rpc.py:264-281 | a served call makes a job with a new number and exactly its layers |
| RemoteRuns.AnsweredSince | iaxl/remote_pool/kvstore_remote.py:112-127 | its response carries that number and these layers until the job is registered |
| RemoteRuns.CallEnds | iaxl/remote_pool/kvstore_remote.py:112-127 | after its registration or a refusal the client can call again |
| RemoteRuns.CompletionFollows | iaxl/remote_pool/rpc.py:332-366 | the place of every completion, as the events so far determine it |
| RemoteRuns.DoneExactlyWhen | iaxl/remote_pool/kvstore_remote.py:148-180 | a task is done exactly when the push of its layer was received and its job is registered |
| RemoteRuns.NoEmptyJobs | iaxl/remote_pool/rpc.py:343-344 | the daemon forgets a job with its last layer |
| RpcCodec.DecEnc | iaxl/remote_pool/rpc.py:66-75 | little-endian two's complement integers of every width decode to themselves |
| RpcCodec.HashesBack | iaxl/remote_pool/rpc.py:43-57 | what unpack_hashes makes of a packed list, in front of any rest: the hashes without trailing NULs, or an error when all are empty |
| RpcCodec.BlocksRoundTrip | iaxl/remote_pool/rpc.py:60-90 | unpack_blocks undoes pack_blocks exactly if no hash ends in NUL and not all are empty |
| RpcCodec.NulIsLost | iaxl/remote_pool/rpc.py:43-57 | a message whose hash arrives without its final NUL |
| RpcCodec.EmptyIsLost | iaxl/remote_pool/rpc.py:43-57 | a message of empty hashes that cannot be unpacked |
| RpcCodec.HasRoundTrip | iaxl/remote_pool/rpc.py:93-108 | unpack_has undoes pack_has under the same condition |
| RpcCodec.IntRanges | iaxl/remote_pool/rpc.py:66-75 | the integers each width takes |
| RpcCodec.HasLayout | iaxl/remote_pool/rpc.py:93-99 | the layout of a has request |
| RpcCodec.LowByteFirst | iaxl/remote_pool/rpc.py:66-75 | integers are little-endian |
| RpcCodec.HashHeader | iaxl/remote_pool/rpc.py:43-48 | packed hashes begin with their count and width |
| RpcCodec.HashLayout | iaxl/remote_pool/rpc.py:43-48 | behind them every hash is in its own record, padded with NULs |
| RpcCodec.BlocksLayout | iaxl/remote_pool/rpc.py:60-75 | the order and width of every field of a request |
| ScratchFlow.ScratchPool.Allocate | iaxl/kvflow/scratch_pool.py:51-60 | cuts exactly count blocks off the free list, or leaves it alone |
| ScratchFlow.ScratchPool.Release | iaxl/kvflow/scratch_pool.py:62-64 | appends the blocks |
| ScratchFlow.OnePlace | iaxl/kvflow/flow.py:247-310 | every block of the pool is free, in one pending put or in one pending get, exactly once |
| ScratchFlow.KVFlow.BeginPut | iaxl/kvflow/flow.py:247-273 | a put owns the blocks it allocated, under a new id |
| ScratchFlow.KVFlow.BeginGet | iaxl/kvflow/flow.py:347-378 | so does a get |
| ScratchFlow.KVFlow.PollPut | iaxl/kvflow/flow.py:286-310 | a complete put gives its blocks back exactly once |
| ScratchFlow.KVFlow.PollGet | iaxl/kvflow/flow.py:402-438 | so does a get |
| ScratchFlow.KVFlow.PutWait | iaxl/kvflow/flow.py:278-310 | on several tasks: releases all that still have blocks, or, when one is incomplete and it must not wait, none |
| ScratchFlow.KVFlow.GetWait | iaxl/kvflow/flow.py:391-438 | so does get_wait |
| ScratchFlow.KVFlow.Allocate | iaxl/kvflow/flow.py:193-207 | ends, with the blocks or with the exhaustion error, which is raised exactly when the request exceeds the whole pool; only transfers found complete have given blocks back |
| ThreadPool.RunIsComplete | iaxl/csrc/common/parallel.cpp:22-39 | run(n, fn) returns only when the function passed to it was executed exactly once for every tid below n and no other |
| ThreadPool.OnlyTheCurrentFunction | iaxl/csrc/common/parallel.cpp:41-58 | the pointer a worker inside a function has read is the one the run in progress stored |
| ThreadPool.NoDeadlock | iaxl/csrc/common/parallel.cpp:22-58 | while a run is in progress some thread can take it forward |
| ThreadPool.PublishedRun | iaxl/csrc/common/parallel.cpp:22-33 | run number g is the g-th call, with its own team size and function |
| ThreadPool.AdvancesEnd | iaxl/csrc/common/parallel.cpp:22-58 | every step NoDeadlock promises brings the run nearer to its end, and only a spurious wake-up of the caller takes it back; a run of n is over after at most 3n + 1 of them |
| ThreadPool.LookDecides | iaxl/csrc/common/parallel.cpp:41-58 | a worker takes part exactly if the run is new to it and its tid is in the team |
| ThreadPool.SleepersWake | iaxl/csrc/common/parallel.cpp:22-33 | a notification wakes every sleeper |
| ThreadPool.ReturnsExactlyWhenDone | iaxl/csrc/common/parallel.cpp:34-39 | the caller returns exactly if every other tid has come back |
| PoolGeometry.MakePool | iaxl/csrc/kv_pool/pool.cpp:34-59 | outer and inner sizes are the products of the dimensions, the total is the tensor's bytes, a bad dimension is refused |
| PoolGeometry.ByteOfSegment | iaxl/csrc/include/kv_pool.h:59-61 | every byte of the pool is in a segment |
| PoolGeometry.SegmentInside | iaxl/csrc/include/kv_pool.h:59-61 | no segment reaches outside the pool |
| PoolGeometry.SegmentsApart | iaxl/csrc/include/kv_pool.h:59-61 | no byte is in two segments |
| PoolGeometry.BlockIndexInverts | iaxl/csrc/include/kv_pool.h:62-65 | block_index inverts block_ptr on every byte of every segment |
| PoolGeometry.ExpandDsa | iaxl/csrc/kv_xfer/dsa.cpp:66-92 | the address arrays denote the moves of the CPU reference copy on the pool as it is mapped |
| PoolGeometry.RemoteDescs | iaxl/csrc/kv_xfer/rdma.cpp:89-95 | entry o * blocks + b describes segment (b, o) |
| PoolGeometry.LocalDescs | iaxl/csrc/kv_xfer/rdma.cpp:132-137 | entry b * outer + o describes row o of scratch block b |
| PoolGeometry.IndexMaps | iaxl/csrc/kv_xfer/rdma.cpp:228-236 | the index pairs of a batch, chunk by chunk and row by row |
| PoolGeometry.RdmaBatchMovesAsCpu | iaxl/csrc/kv_xfer/rdma.cpp:228-236 | through the descriptor lists they denote the moves of the CPU reference copy, in order |
| PoolCopy.Gather | iaxl/csrc/kv_xfer/cpu.cpp:68-83 | the block's rows arrive in order in the scratch buffer and nothing else changes |
| PoolCopy.Scatter | iaxl/csrc/kv_xfer/cpu.cpp:68-83 | the scratch rows are written over the block's segments |
| PoolCopy.MovesAreGather | iaxl/csrc/kv_xfer/cpu.cpp:68-83 | executing the reference moves of a chunk on the bytes is Gather |
| PoolCopy.MovesAreScatter | iaxl/csrc/kv_xfer/cpu.cpp:68-83 | in the other direction it is Scatter |
| PoolCopy.BatchGathers | iaxl/csrc/kv_xfer/cpu.cpp:85-92 | executing the moves of a batch, which the DSA arrays and RDMA pairs denote too, gathers its chunks one after the other |
| PoolCopy.BatchScatters | iaxl/csrc/kv_xfer/cpu.cpp:85-92 | in the other direction it scatters them one after the other |
| PoolCopy.BatchGathered | iaxl/csrc/kv_xfer/cpu.cpp:85-92 | after a batch towards scratch blocks that do not overlap, each holds its chunk |
| PoolCopy.BatchGathersNothingElse | iaxl/csrc/kv_xfer/cpu.cpp:85-92 | and every other range of the scratch buffer is as it was |
| PoolCopy.BatchScattered | iaxl/csrc/kv_xfer/cpu.cpp:85-92 | after a batch towards the pool with each chunk named once, each chunk is its scratch block |
| PoolCopy.BatchScattersNothingElse | iaxl/csrc/kv_xfer/cpu.cpp:85-92 | and every block that is no chunk of the batch is as it was |
| PoolCopy.BatchCarries | iaxl/csrc/kv_xfer/cpu.cpp:85-92 | a batch copied out of one pool and into another carries exactly its chunks over |
| PoolCopy.GatherScattered | iaxl/csrc/kv_xfer/cpu.cpp:68-83 | gathering after a scatter gives back what was scattered |
| PoolCopy.OtherBlocksKept | iaxl/csrc/kv_xfer/cpu.cpp:68-83 | a scatter touches no other block |
| PoolCopy.GatherScatterRestores | iaxl/csrc/kv_xfer/cpu.cpp:68-83 | gather then scatter leaves the whole pool as it was |
| Connector.ExactlyOneMap | kvshrink/kvshrink_connector.py:598-666 | a load with an unfinalised layer is in exactly one of the pending, promoted and active maps (or the synchronous batch) |
| Connector.BundleBelongs | kvshrink/kvshrink_connector.py:608-666 | a bundle id belongs only to a pending or promoted load |
| Connector.NeverDuplicate | kvshrink/kvshrink_connector.py:600-608 | the duplicate error is unreachable |
| Connector.ForwardLoadsAll | kvshrink/kvshrink_connector.py:684-699 | when the active map is cleared every load in it is complete, mamba layers included |
| Connector.CompleteMeansDone | kvshrink/kvshrink_connector.py:747-806 | a request is reported complete only once all its loads and saves have completed |
| Connector.ReportedExactlyWhen | kvshrink/kvshrink_connector.py:776-804 | a look of get_finished reports a request exactly if its loads are complete, or it has none, and all its saves are; no other request is affected |
| Connector.PendingUntilPolled | kvshrink/kvshrink_connector.py:608-666 | an asynchronous load is pending with its early layers until a poll finds them |
| Connector.PolledLoad | kvshrink/kvshrink_connector.py:753-774 | a poll counts exactly its early layers as there and promotes the load unless it was for all |
| Connector.PromotedUntilScheduled | kvshrink/kvshrink_connector.py:607-630 | a promoted load stays so until a forward schedules it |
| Connector.ForwardRuns | kvshrink/kvshrink_connector.py:684-699 | a forward holds exactly the promoted loads it schedules and waits for every attention layer once, in order |
| Connector.WaitedLayer | kvshrink/kvshrink_connector.py:684-699 | a wait counts exactly that layer of the loads of the forward as there |
| Connector.BundleUntilForward | kvshrink/kvshrink_connector.py:608-666 | a bundle exists exactly for a load with later layers that has not entered a forward |
| Connector.AbandonedIsGone | kvshrink/kvshrink_connector.py:787-792 | a finished request whose load is complete is in no map |
| Connector.SavesInOrder | kvshrink/kvshrink_connector.py:794-802 | every save is waited for once and in order |
| Connector.SavesAreRecorded | kvshrink/kvshrink_connector.py:740-745 | every save of a request is on its books |
| Connector.SavedExactlyWhen | kvshrink/kvshrink_connector.py:794-802 | a save counts as finished exactly when it was found complete |
| Connector.DeferredUntilReported | kvshrink/kvshrink_connector.py:776-804 | a finished request is looked at until it is reported |
| SaveRanges.AddRequestToSave | kvshrink/kvshrink_connector.py:375-407 | the rows of a step's range for every group, none when the range or all rows are empty, with or without mamba layers |
| SaveRanges.MetaIsWanted | kvshrink/kvshrink_connector.py:375-407 | what a call hands to an attention group is the range's blocks that do not exist |
| SaveRanges.ForGroupIsWanted | kvshrink/kvshrink_connector.py:64-72 | what for_group extracts is the list of the range's blocks that do not exist, with their ids and hashes |
| SaveRanges.StepsTile | kvshrink/kvshrink_connector.py:429-454 | over any consecutive steps, what is handed to attention saves is exactly the full prompt blocks that do not exist, each once and in order |
| SaveRanges.WantedHas | kvshrink/kvshrink_connector.py:396-400 | that list holds a pair exactly if it is a non-existing block of the range |
| SaveRanges.BlankHandsNothing | kvshrink/kvshrink_connector.py:404-407 | a skipped request would have handed over nothing |
| SaveRanges.MambaAtBoundaries | kvshrink/kvshrink_connector.py:388-398 | a mamba group saves the last block's state, only on a block boundary and only if it does not exist |
| SaveRanges.MetaExactlyWhen | kvshrink/kvshrink_connector.py:375-407 | a step hands a request over exactly if a group has a block to save: an attention block the store lacks, or the mamba state of a boundary |
| SaveRanges.RowHas | kvshrink/kvshrink_connector.py:388-403 | the id in every place of a row |

## Left out

- DEFLATE and the QAT, IAA and zlib engines: a backend is any decoder that returns what was encoded, with a non-empty
  stream; the format itself (RFC 1951) is not modelled.
- Magic and version checks of block headers and every other failed IAXL_CHECK, which abort the process.
- kv_zip batches of several blocks: the blocks of a batch are independent, given different block indices; one block is
  modelled. Each memcpy of the codec is one step, on disjoint regions.
- lossy_mask: the mask is a parameter of the codec; its choice from the configuration is one expression.
- DeletionGuard.HeldIsNeverFreed: claimed for evict_labels only; evict_groups, remove and evict_to_size look at the guard
  before they take the lock, and an overwriting put frees at once, relying on zip and unzip sharing one worker. Free
  tasks may run in any order in the model, in the code they run one at a time.
- TaskQueue.Queue.SortPriorityLevel: stable_sort is given by its specification, not by an algorithm.
- EvictLru.KVStore.EvictLru: rounding of time stamps and the watermark arithmetic of the monitor.
- EvictFence: which keys a decision chooses is left open there, any non-empty set; a rank whose drop fails aborts the
  scheduler.
- Persistence: groups of one persist_groups call are separate events; storage errors abort the process, so a save always
  succeeds.
- Connector: the dictionaries of the worker are values and the loops of get_finished one event per request. Assumed of
  vLLM: one call at a time, a forward waits for its attention layers in order, each request is loaded once, and
  get_finished runs between forwards.
- MemCache: hit, miss and compression statistics, capacity warnings, and the storage path of get (see Persistence for its
  bytes and Retry for its place in a load).
- Retry: the bytes of a key, which a load from an older file may bring back between a put and its row (`Persistence.OldBytesUntilRecorded`); keys
  are evicted one by one rather than by group; other callers of put and get than compress tasks and loads.
- DsaBatch.RunThread: the alignment and size checks before the threads start, and the reduction of their results; the
  synchronous call must not overlap with asynchronous ones.
- DsaRuns: tickets do not wrap around; completion timeouts abort; that the hardware completes what it accepted.
- RemoteRuns: job ids do not wrap around while outstanding, a call names at least one layer; one client per daemon.
- RpcCodec.BlocksRoundTrip: texts are their encoded bytes, and a message whose fields do not fit, a hash that is not ASCII
  among them, is not packed but raises; JSON
  messages, the handshake and the registration of memory.
- ScratchFlow: in-place CPU mode uses no scratch blocks. A pending transfer completes in some round of polling; one that
  never does keeps _allocate waiting.
- PoolGeometry: the registry of pools, reference counts of RDMA registrations and 64-bit overflow of addresses.
- PoolCopy: copy_chunk returns at once when source and destination address coincide; the model's arrays never do.
- ThreadPool: a nested run on the same pool aborts; OpenMP teams are not modelled.
- SQLite, file I/O, the HTTP management API, NIXL, CUDA and SYCL streams, profiling, metrics, affinity and configuration.
