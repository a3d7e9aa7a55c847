# A verified model of the in-memory queue

This project models the `queue` package: a multi-producer, multi-consumer queue kept as a
linked list of 1000-slot chunks, read through pointer cursors, trimmed from the front by
time-to-live, and metered by a byte counter. It has four parts.

1. **The queue as objects.** `ChunkNode`, `MemoryTracker`, `ChunkedList`, `Cursor`,
   `ConsumerManager` and `Queue` are classes with the fields of the Go structs, updated in
   place. Ghost state ties them to a plain log with a low-water mark and one offset for each
   reader (`LogView`, `Reader`, `QueueSpec`). `RunQueue` shows that every sequence of
   operations gives the same outputs as the log. `OperationLaws` says of every operation on
   the log, without the functions that define it, which outcome it has exactly when and what
   changes. `RunTheorems`, `AdmissionTheorems` and `ExpiryTheorems` then prove what every run
   of the log keeps, and `Questions` when the answers that a reader gets agree.
2. **Reads as interleaved steps.** `GroupSteps` splits the `TryRead` of a group and that of an
   independent consumer into their separate loads and locked sections, for any number of
   reading goroutines, next to producers and expiry passes. `GroupTheorems`
   proves what all interleavings keep, and exactly which step can break it; `GroupRaces`
   gives concrete runs for the breaking steps; `GroupSolo` shows that the steps of one member
   without interference amount to the read of the log; `GroupBooks` keeps the reader's books
   while a pass counts and repairs in separate steps.
3. **Locks.** `LockOrder` writes every operation as an acquire/release program; `Deadlock`
   runs any number of goroutines over Go's read-write locks.
4. **The size estimator.** `SizeEstimator` walks an abstract, possibly cyclic value graph with
   and without the per-type cache. `SizeLaws` shows what it computes: the sum of every value's
   own bytes over a visit of the graph; `SizeBounds` when it stops short of that.

`ClockReadings` and `ClockRepair` stand beside these. They give an expiry pass as many clock
readings as the code makes, and say when it still removes a prefix, when the computed counts,
the cursor repair and the order of later reads are still right, and when not.

## Assumptions

- One clock reading per expiry pass, except in `ClockReadings` and `ClockRepair`. The code
  reads the clock for every item and again at `queue/chunked_list.go:191`. With several
  readings the refinement fails as well wherever these two modules say so.
- Items that reach the list have a size between 168 (the two fixed overheads on a 64-bit
  platform) and the largest int64: the estimator's result (`EstimateAll`).
- `maxMemory` plus the chunk overhead of the largest batch that it admits fits in int64
  (`FitsInt64`).
- A list element and its chunk are one object, and chunks are never reused: `PutChunkNode`
  only sets `pooled` (`queue/pool.go:12-18`).
- Readers are those registered with the manager; nobody calls `SetPosition` from outside.
  Members of a group act through the group.
- In `QueueSpec` and `Queue` each operation is atomic, except that Close has two halves, the
  flag with the closing of the consumers and the clearing of the list, between which other
  operations may run. A blocked producer is one attempt that ends in `Park`.
- The step model has no Close and no removal of the reader.

## Where the code falls short of a property

- *Blocked batches.* `EnqueueBatch` parks on the item limit (`queue/queue.go:394`) before it
  compares the batch with `maxMemory` (`queue/queue.go:404`), so a parked batch may be too big
  for an empty queue. `ParkedBatchFitsEmpty` gives the exact condition and
  `HopelessBatchParks` a run.
- *Initialisation.* The first element is fetched and installed in two locked sections
  (`queue/consumer_group.go:84-100`, `queue/consumer.go:137-150`). If its chunk is emptied in
  between and the cursor has been reset, the install brings the cursor back and an old fetch
  can commit: `NeverReturnsIff` and `OneItemTwoMembers`. `GuardedInstallsSuffice` names a test
  that would prevent it.
- *Leaving a chunk.* The size test and the load of `NextElement`
  (`queue/consumer_group.go:124` and `queue/consumer_group.go:158`, `queue/consumer.go:175` and
  `queue/consumer.go:213`) are separate. If the chunk fills up and a successor is linked in
  between, the cursor passes the new items over, even with one reading goroutine:
  `NothingPassedOverIff` and `UnreadItemsPassedOver`.
- *Consumers added during Close.* A consumer registered between the two halves of Close stays
  open in a chunk that is gone. Until its next read `HasMoreData` and `GetUnreadCount` tell it
  of the items that Close dropped, and the read finds none: `AskAll` gives the exact condition,
  `ClearAndAsk` the whole family and `StrandedConsumer` a run.
- *Several clock readings.* If the oldest item of a chunk expires between its scan and the test
  at `queue/chunked_list.go:191`, the pass goes on to the next chunk and may take items from
  behind it: `PrefixIff`. A cursor in a chunk that lost nothing itself is then told of no loss:
  `CountIsExactIff` and `LossUncounted`. If a chunk behind a kept one is emptied, a cursor in it
  is sent back to the front, and a reader that comes to it from the kept chunk loses its position
  and gets the kept items again, until the next pass or the next new chunk:
  `EveryRepairExactIff`, `ReadsInOrderIff` and `SentBack`.
- *Counting and repairing.* A pass looks at a cursor and repairs it under two separate locks
  (`queue/consumer.go:926-941`, `queue/consumer.go:946-958`), and readers go on in between.
  An item fetched before the pass can be counted as lost and then delivered. `BookedIff` names
  this step and the three others that break the books; `DeliveredAndTold` is a run.
- *Shared payload parts.* The visited map is made at the first reference met
  (`queue/memory.go:198-200`) and is nil above it, so the fields of a payload do not share it, and what
  two of them lead to is counted twice: `OnceIffDisjoint` and `SharedPointerCountedTwice`.
- *Documentation.* `docs/ARCHITECTURE.md:513-525` describes slots that shift when items
  expire. The code never moves a slot; the model follows the code.

## Model

| member | source | states |
|---|---|---|
| `QueueModel.RunQueue` | queue/queue.go:134-719 | for every configuration and every sequence of enqueues, batches, expiry passes, registrations, removals, reads, filtered reads, usage queries, settings and the halves of Close, the outputs of chunks and pointer cursors equal those of a log with a low-water mark and one offset per reader |
| `QueueModel.Queue.Apply` | queue/queue.go:134-719 | any one operation takes the abstract state of the objects to the specified next state and keeps the whole representation invariant |
| `QueueModel.Queue.TryEnqueue` | queue/queue.go:134-157 | the outcome and new state are those specified on the log, with the same order of tests and the same errors |
| `QueueModel.Queue.Enqueue` | queue/queue.go:162-222 | one attempt of the blocking enqueue: admitted, rejected or parked as specified on the log (`EnqueueLaw`) |
| `QueueModel.BatchSize` | queue/queue.go:327-338 | the int64 accumulation reports overflow exactly when the unbounded sum exceeds int64, and is otherwise exact |
| `QueueModel.Queue.TryEnqueueBatch` | queue/queue.go:306-355 | all or nothing, as specified on the log |
| `QueueModel.Queue.EnqueueBatch` | queue/queue.go:359-433 | one attempt of the blocking batch, including the order in which limits are tested |
| `QueueModel.Queue.CleanupExpiredItems` | queue/queue.go:699-735 | the log's mark rises to the first survivor, every reader books its unread losses, and the count is the number of items removed (`ExpireLaw`) |
| `QueueModel.Queue.AddReader` | queue/consumer.go:739-774 | a new reader starts at the oldest live item; a known key changes nothing |
| `QueueModel.Queue.RemoveReader` | queue/consumer.go:777-797 | exactly that reader goes, and the others and the list stay as they were |
| `QueueModel.Queue.TryReadBatch` | queue/consumer.go:285-305 | the items and the reader's new state are those of reading the log; no other reader moves |
| `QueueModel.Queue.TryReadWhere` | queue/consumer.go:587-613 | the same for a filtered read, with the error that a group gets instead (`ReadWhereLaw`) |
| `QueueModel.Queue.HasMoreData` | queue/consumer.go:386-411 | in every state: true exactly when `GetUnreadCount` would be positive |
| `QueueModel.Queue.GetUnreadCount` | queue/consumer.go:414-436 | in every state: zero for a blocked reader, what Close dropped for one stranded in a dead chunk, and otherwise the exact number of unread live items |
| `Questions.AskAll` | queue/consumer.go:386-436 | HasMoreData, GetUnreadCount > 0 and the next read agree in every state, if and only if the reader is not one that stands open in a dead chunk and lost items to Close |
| `Questions.ClearAndAsk` | queue/chunked_list.go:206-223 | whoever is open and has a position when the list is cleared is told afterwards exactly of the unread items that it lost, and gets none |
| `Questions.ReadRest` | queue/consumer.go:414-436 | a batch of one more than the unread count gives exactly that many items, unless the reader is stranded |
| `Questions.StrandedConsumer` | queue/queue.go:639-657 | after an enqueue, the first half of Close, a registration and the second half, the consumer is told of one unread item and gets none |
| `QueueModel.Queue.CloseFlag` | queue/queue.go:639-652 | sets the flag once and closes every independent consumer and nothing else |
| `QueueModel.Queue.CloseClear` | queue/queue.go:654-656 | empties the list and pools every chunk; a reader's unread items are booked as dropped (`CloseClearLaw`) |
| `OperationLaws.TryEnqueueLaw` | queue/queue.go:134-157 | admitted, closed, full and out of memory each exactly under its condition on the stored items and bytes; when admitted the log grows by the item alone, otherwise nothing changes |
| `OperationLaws.EnqueueLaw` | queue/queue.go:162-222 | admitted, parked, closed and too big each exactly under its condition; the log grows by the item alone or nothing changes |
| `OperationLaws.TryEnqueueBatchLaw` | queue/queue.go:306-355 | the five outcomes of a batch, each exactly under its condition on the unbounded sum of its sizes; an empty batch is admitted unless the queue is closed |
| `OperationLaws.EnqueueBatchLaw` | queue/queue.go:359-433 | the six outcomes of a blocking batch, each exactly under its condition: overflow, too many items ever, parked, too big, admitted, closed |
| `OperationLaws.ExpireLaw` | queue/queue.go:699-719 | with n the count: every one of the n oldest items is older than the ttl at the time of the pass and the next is not, the mark rises by n, each reader's losses by its unread share of them, and with expiration off nothing changes |
| `OperationLaws.RegisterLaw` | queue/consumer.go:739-774 | a new reader starts open at the mark with nothing delivered or lost, and a known key changes nothing |
| `OperationLaws.RemoveLaw` | queue/consumer.go:777-797 | exactly that key goes |
| `OperationLaws.ReadBatchLaw` | queue/consumer.go:285-305 | a batch is the next items of the log from the later of offset and mark, the number asked for or all there are, and exactly these are consumed; a closed or unknown reader gets none |
| `OperationLaws.ReadWhereLaw` | queue/consumer.go:587-613 | an open consumer gets the first unread item that satisfies its predicate and consumes everything through it, or gets nothing and consumes everything exactly when no unread item satisfies it; a group gets the error |
| `OperationLaws.MemoryLaw` | queue/memory.go:293-308 | the usage told is the sum of the stored sizes and the overhead of the least number of chunks that hold the slots from the front one on |
| `OperationLaws.SettingsLaw` | queue/queue.go:595-625 | a setting changes only itself, and the number of items told is the length of the log above the mark |
| `OperationLaws.InitialLaw` | queue/queue.go:87-125 | a new queue is open, holds nothing, tells zero items and zero bytes, and expires exactly with a positive ttl |
| `OperationLaws.CloseFlagLaw` | queue/queue.go:639-652 | afterwards every reader that was registered is barred, and nothing but the flags has changed |
| `OperationLaws.CloseClearLaw` | queue/queue.go:654-656 | the mark goes to the end of the log, and each reader's dropped count rises by exactly its unread items |
| `OperationLaws.CloseEmpties` | queue/queue.go:639-657 | from every state, after the two halves of Close and any operations, nothing is stored, no chunk or byte is left, and every TotalItems and MemoryUsage since has answered zero |
| `OperationLaws.ClosedReadsNothing` | queue/consumer.go:115-130 | whoever was registered when the queue was closed gets nothing from any read after any operations, unless it registers anew |
| `Chunk.ChunkNode.Add` | queue/data.go:103-114 | writes the next slot, or refuses exactly when the chunk is full and leaves it alone |
| `Chunk.ChunkNode.Get` | queue/data.go:117-129 | yields an item exactly for the live slots |
| `Chunk.ChunkNode.RemoveExpired` | queue/data.go:144-166 | removes and returns the longest expired prefix of the live slots |
| `Chunk.ChunkNode.EarliestCreated` | queue/data.go:169-180 | the clock test on its result decides whether the oldest live item has expired |
| `Memory.MemoryTracker.AddData` | queue/memory.go:80-85 | int64 addition, exact when the sum fits |
| `Memory.MemoryTracker.RemoveData` | queue/memory.go:87-102 | subtraction clamped at zero |
| `Memory.MemoryTracker.AddChunk` | queue/memory.go:293-295 | int64 addition of the chunk overhead, exact when the sum fits |
| `Memory.MemoryTracker.RemoveChunk` | queue/memory.go:297-308 | subtraction of the chunk overhead clamped at zero |
| `Chunked.ChunkedList.Enqueue` | queue/chunked_list.go:25-66 | appends exactly when the bytes fit; the NextElement chain, the fill of every chunk, the item count and the byte counter stay exact |
| `Chunked.ChunkedList.EnqueueBatch` | queue/chunked_list.go:69-108 | the failure branch in mid-batch is never taken, and the layout is that of the whole batch appended |
| `Chunked.ChunkedList.RemoveExpiredData` | queue/chunked_list.go:143-198 | what goes is the log from the old mark to the first survivor, across chunks; the removal records are adjacent intervals that cover it, and each old chunk is either listed or pooled below the mark |
| `Chunked.ChunkedList.Accounted` | queue/memory.go:80-102 | tracked memory equals the live bytes plus the overhead of the listed chunks, so no clamp ever acts |
| `Chunked.ChunkedList.Clear` | queue/chunked_list.go:206-223 | no chunk and no byte is left, and every chunk is pooled |
| `Chunked.ChunkedList.CountItemsFrom` | queue/chunked_list.go:231-263 | the walk along NextElement counts exactly the live items at or after the given slot, in a list and in chunks that Clear has left behind |
| `Cursors.Cursor.ConsumerRead` | queue/consumer.go:132-230 | returns the log entry at the cursor's position or the mark, whichever is later, and nil exactly when there is none; the jump over expired slots terminates |
| `Cursors.Cursor.GroupRead` | queue/consumer_group.go:72-174 | the same although a group skips expired slots one at a time |
| `Cursors.Cursor.TryRead` | queue/consumer.go:115-230 | one item consumed or nothing changed, for both kinds of reader |
| `Cursors.Cursor.TryReadBatch` | queue/consumer.go:285-305 | equals repeated single reads up to the limit |
| `Cursors.Cursor.TryReadWhere` | queue/consumer.go:587-613 | equals single reads until one matches; terminates because unread falls |
| `Cursors.Cursor.CalculateExpiredCount` | queue/consumer.go:882-909 | from the removal records alone, the number of unread items that the pass took from this cursor, wherever it stands |
| `Cursors.Cursor.UpdatePositionAfterExpiration` | queue/consumer.go:514-546 | the repaired cursor is nil or in a listed chunk, and its next item is the first survivor at or after its old position |
| `Cursors.Cursor.AfterExpiration` | queue/consumer.go:920-941 | count and repair together: the reader's losses grow by its unread items below the new mark |
| `Consumers.ConsumerManager.NotifyAllConsumersOfExpiration` | queue/consumer.go:911-961 | every registered reader is repaired and booked, each exactly once |
| `Readers.TakeIsPrefix` | queue/consumer.go:285-305 | repeated single reads give the first min(limit, unread) items in log order and consume exactly those |
| `Readers.SeekIsFirstMatch` | queue/consumer.go:587-613 | the first unread match is returned and exactly the prefix through it is consumed, or everything when none matches |
| `LogView.BatchRoom` | queue/queue.go:340-350 | no partial sum of an admitted batch, chunk overhead included, leaves int64 |
| `QueueSpec.StepReachable` | queue/queue.go:134-719 | every operation keeps the invariant of the specified state |
| `RunTheorems.StepBalanced` | queue/consumer.go:911-942 | every operation keeps each reader's books balanced and its deliveries in log order |
| `RunTheorems.Conservation` | queue/consumer.go:739-760 | in every run: delivered + expired unread + dropped by Close + unread = present at registration + enqueued since, and deliveries are distinct and in log order |
| `RunTheorems.NothingSkipped` | queue/consumer.go:115-230 | in every run, a reader that has lost nothing has got every item from the mark at its registration up to its next one, each exactly once and in order |
| `AdmissionTheorems.RunBounded` | queue/memory.go:72-85 | after every history the items alone stay within maxMemory, total memory exceeds it by at most the chunks of the largest admitted batch, and that batch is bounded by maxMemory over the minimum item size |
| `AdmissionTheorems.CloseIsFinal` | queue/queue.go:639-657 | once cleared, no sequence of operations changes the log again, and items, chunks and tracked memory stay zero |
| `AdmissionTheorems.ParkedMeansOccupied` | queue/queue.go:170-222 | a producer parks only when the queue holds an item |
| `AdmissionTheorems.ParkedEnqueueFitsEmpty` | queue/queue.go:170-222 | a parked single enqueue is admitted by the empty queue |
| `AdmissionTheorems.ParkedRetry` | queue/queue.go:170-222 | whatever operations run while a producer is parked, a retry that finds the queue open and empty is admitted, a batch exactly when its bytes fit |
| `AdmissionTheorems.FullExpiryUnparks` | queue/queue.go:170-222 | a pass that expires everything makes its retry succeed |
| `AdmissionTheorems.ParkedBatchFitsEmpty` | queue/queue.go:382-433 | a parked batch is admitted by the empty queue if and only if its bytes are at most maxMemory, and it never parks there |
| `AdmissionTheorems.HopelessBatchParks` | queue/queue.go:394-412 | a run after which a batch parks that an empty queue rejects |
| `AdmissionTheorems.BatchAdmittedIff` | queue/queue.go:306-355 | admitted exactly when open, within the item limit, and its unbounded total fits in what is left; otherwise nothing changes |
| `AdmissionTheorems.SinglesImplyBatch` | queue/chunked_list.go:69-108 | what one-by-one enqueues would admit the batch admits, with the same log and layout |
| `AdmissionTheorems.ReadYieldsIff` | queue/consumer.go:386-436 | the next read yields an item exactly when the reader is not blocked and something is unread, and it is the item at its position |
| `ExpiryTheorems.LongestExpiredPrefix` | queue/chunked_list.go:143-198 | everything removed has expired and the first item left has not |
| `ExpiryTheorems.EarlyStopIsExactIff` | queue/chunked_list.go:187-194 | the early stop leaves no expired item behind, for all clocks and times-to-live, if and only if creation times are nondecreasing |
| `ClockReadings.RemoveExpired` | queue/chunked_list.go:143-198 | the loops with a clock reading for every test remove, chunk by chunk, what the recursive definition says |
| `ClockReadings.ScanLaw` | queue/data.go:144-166 | everything that a scan removes had expired at its own reading, and the survivor had not at its |
| `ClockReadings.PassLaw` | queue/chunked_list.go:173-194 | each chunk that the pass gets to is scanned from the reading after those of the chunks before, and the pass goes on exactly when the chunk is emptied or its survivor has expired at one more reading |
| `ClockReadings.PrefixIff` | queue/chunked_list.go:187-194 | for every clock, what a pass removes is a prefix of the stored items if and only if it never goes on from a kept chunk, whose survivor has expired meanwhile, to one whose first item has expired |
| `ClockReadings.OneReadingNeverOvertakes` | queue/chunked_list.go:187-194 | with a clock that stands still during the pass this never happens |
| `ClockReadings.CountIsExactIff` | queue/consumer.go:882-909 | the count computed from the removal records equals the items that a cursor lost if and only if its own chunk lost something or no chunk behind it did |
| `ClockReadings.LossUncounted` | queue/consumer.go:882-909 | a pass that takes an item from behind a kept chunk and tells the reader in front of both of no loss |
| `ClockRepair.RepairExactIff` | queue/consumer.go:525-545 | after a pass with any readings, the survivors at or after a cursor are the same before and after its repair, if and only if its chunk is still there or no chunk in front of it was kept |
| `ClockRepair.EveryRepairExactIff` | queue/consumer_group.go:185-205 | all repairs are exact if and only if no chunk behind a kept one was emptied |
| `ClockRepair.ReadsInOrderIff` | queue/consumer_group.go:102-173 | reads from every place deliver each slot at most once and in order, if and only if no chunk behind a kept one was emptied |
| `ClockRepair.ReadIsFirst` | queue/consumer_group.go:102-173 | where no chunk behind a kept one was emptied, a read delivers the first live slot at or after the cursor, and nothing exactly when there is none |
| `ClockRepair.OneReadingIsHarmless` | queue/chunked_list.go:173-194 | a pass with a single reading empties no chunk behind a kept one |
| `ClockRepair.SentBack` | queue/consumer.go:534-540 | a pass after which a reader that had read everything is sent back, and one that starts afresh gets the same item twice in three reads |
| `GroupSteps.StepKeeps` | queue/consumer_group.go:72-206 | every reader, producer or pass step except a stale install keeps the invariant of the interleaved system, for a group and for a consumer |
| `GroupTheorems.AtMostOnceInLogOrder` | queue/consumer_group.go:135-144 | over all interleavings without a stale install, deliveries to all members together are distinct log entries in log order |
| `GroupTheorems.NeverReturnsIff` | queue/consumer_group.go:93-173 | the cursor never moves back and never returns to a place it left (no ABA, so a stale snapshot never commits) exactly in the runs without a stale install |
| `GroupTheorems.GuardedInstallsSuffice` | queue/consumer_group.go:93-99 | if every install finds no position and an unpooled chunk, the cursor never goes back and deliveries are distinct and in log order at every point |
| `GroupTheorems.AtomicInitIsNeverStale` | queue/consumer_group.go:84-100 | if first-element fetch and install happen in one go, no install is stale, for a group and for a consumer with one reading goroutine |
| `GroupTheorems.NothingPassedOverIff` | queue/consumer_group.go:124-173 | at every point each written item is delivered, expired or ahead of the cursor, exactly when no member moves on from a chunk that was filled after its size test |
| `GroupBooks.BookedIff` | queue/consumer.go:911-961 | over all interleavings without a stale install, each stored item is at every point exactly one of delivered, told as lost and unread, if and only if no commit comes after the item was counted, no consumer jumps over slots taken and not yet counted, no member leaves a chunk with unread slots, and no pass counts for a cursor that was given up or stands in a chunk that was gone before it |
| `GroupBooks.LateCommitIsBetween` | queue/consumer.go:926-941 | a commit after the count happens only before the repair of the same pass |
| `GroupBooks.BookedAddsUp` | queue/consumer.go:882-961 | then deliveries + items told as lost + unread items = items ever stored |
| `GroupSolo.FirstLiveIsFirst` | queue/consumer_group.go:126-173 | no live slot lies between the cursor and the slot that a read is specified to find |
| `GroupSolo.SoloTryRead` | queue/consumer_group.go:72-173 | from every state of the invariant with no writer at work, TryRead alone gives up a cursor whose chunk is gone, finds an empty list empty, installs a first element when it has no position, and delivers exactly the first live item from where it begins |
| `GroupSolo.SoloRead` | queue/consumer_group.go:102-173 | from every quiet state the steps of one member alone deliver exactly the first live item at or after the cursor and leave the cursor just behind it, or end without a delivery when there is none |
| `GroupRaces.OneItemTwoMembers` | queue/consumer_group.go:84-100 | an interleaving that delivers one item to two reading goroutines through a stale install |
| `GroupRaces.UnreadItemsPassedOver` | queue/consumer.go:175-223 | an interleaving with one reading goroutine and without stale installs, of a group or of an independent consumer, that passes 999 live items over |
| `GroupRaces.DeliveredAndTold` | queue/consumer.go:926-941 | an interleaving with one reading goroutine in which the reader is told that it lost an item and is then given it |
| `LockOrder.OpOrdered` | queue/consumer.go:739-961 | every operation takes queue, manager, cursor and chunk locks in rank order on every path |
| `LockOrder.FootprintLaw` | queue/consumer.go:739-961 | the exact set of locks and modes that every operation takes |
| `Deadlock.NoWaitCycle` | queue/queue.go:699-719 | chains of waits, announced writers included, never repeat a goroutine and are short |
| `Deadlock.DeadlockFree` | queue/consumer.go:739-961 | for any number of goroutines running any operations under any schedule: no cycle of waits, some unfinished goroutine can go on, and all can be driven to the end, including Close waiting for the expiration worker |
| `Deadlock.MutualExclusion` | queue/queue.go:699-719 | a writer inside a lock is alone there in every reachable state |
| `Deadlock.ReversedOrderDeadlocks` | queue/consumer.go:740-745 | taking the manager's lock before the queue's in AddConsumer would deadlock with an expiry pass |
| `SizeEstimator.Estimator.EstimateValueSize` | queue/memory.go:161-291 | with any sound cache the walk finds the size, the fixed flag and the visited set of the cache-free walk unless that was cut for depth, keeps the cache sound, and terminates on every graph (`WalkVisits`) |
| `SizeEstimator.Estimator.EstimateQueueDataSize` | queue/memory.go:46-60 | at least the fixed overhead, and the exact sum up to saturation at the largest int64 |
| `SizeLaws.WalkVisits` | queue/memory.go:161-291 | a walk that is neither cut nor barred finds the saturated sum of the own bytes (length of a text, header of a reference, header and data of a basic slice, 2^40 for a map) over a visit of the graph: every root and every child is entered once for each occurrence or refers to an address already seen, no address is entered twice, and all that is entered is reachable |
| `SizeLaws.VisitCloses` | queue/memory.go:191-203 | nothing that an entered value leads to is missing from a visit |
| `SizeLaws.PayloadTotals` | queue/memory.go:161-291 | at the top: the own bytes of what the payload holds by value plus a visit of its own from each reference |
| `SizeLaws.DataSizeLaw` | queue/memory.go:46-60 | the size of an item is 168 plus that of its payload and its two event strings, up to saturation |
| `SizeLaws.ShortcutLaw` | queue/memory.go:104-154 | the size of an item whose payload is nothing, bytes, a primitive or of a type that reports its size, negative reports counting as zero |
| `SizeBounds.CutIsDeep` | queue/memory.go:163-165 | a walk is cut only if some path of values goes beyond depth 1000 |
| `SizeBounds.BarredLaw` | queue/memory.go:163-189 | beyond the cut-off a value counts nothing, after 10000 addresses or when too large to copy 2^40 |
| `SizeBounds.BarredIsLarge` | queue/memory.go:167-185 | a walk is barred only if more than 10000 addresses have been seen or an array or struct on some path exceeds the memory limit |
| `SizeBounds.BarredPayload` | queue/memory.go:167-185 | the same for a whole payload, whose references each have a visited set of their own |
| `SizeBounds.OnceIffDisjoint` | queue/memory.go:194-202 | over a whole payload each address is counted once if and only if no address is reached from two of its references |
| `SizeBounds.SharedPointerCountedTwice` | queue/memory.go:194-202 | two pointers to one int64 in a struct count it twice at the top and once behind a pointer |
| `SizeEstimator.CompositeUniform` | queue/memory.go:238-277 | if every part of an array or struct type has one size, so has the type, in every heap, context and depth |
| `SizeEstimator.CutOffHidesSize` | queue/memory.go:163-165 | at the depth cut-off the walk and a cached size disagree |
| `SizeEstimator.EstimateAll` | queue/memory.go:46-60 | over any sequence of items the shared cache is transparent for every payload nested within the cut-off, cyclic ones included |

## Left out

- Wake-up of readers and producers: `notifyWaitingConsumers` and the dequeue channel carry capped, shared tokens, so liveness is not guaranteed by the code; blocking is modelled as park and retry.
- Blocking reads, the `WithContext` variants, tickers, `NativeChannel` and `Ready`: runtime plumbing around the modelled attempts.
- Notification channel contents: sends are dropped when the buffer is full; the computed counts are modelled instead.
- Dequeue history, `lastReadTime` and the eviction of idle consumers: they move no cursor except by removing a reader; `CleanInactive` appears in the lock programs only.
- Readers racing Close below operation level: `Clear` zeroes slots without moving `head`.
- Step model: one reader, with a batch as single puts, and without the `closed` flags.
- A nil predicate in `TryReadWhere`: it returns nothing at once.
- `reflect` and `unsafe` behaviour, panic recovery and named `Size()` methods: values, types and reported sizes are given; fields that cannot be addressed never occur, since an unaddressable struct is copied first.
- The in-place buffer of a chunk is a sequence field of fixed length, because the Go array lies inside the struct; element aliasing does not arise.
- UUIDs and sequence identifiers: items carry an abstract identity, and log order is not claimed to be identifier order.
- `queue/metrics.go`, `queue/errors.go` texts, `cmd/`, `examples/` and `scripts/`: formatting and I/O.
