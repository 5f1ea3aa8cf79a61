# Verification model of rt_debug_lib

rt_debug_lib records traces, logs, profiler batches and event counters of running programs in shared
memory and extracts them later in time order. This project models the data structures that make this work
and proves what they guarantee, for every ring size, every number of groups and every number of threads:

- the two-lock ring FIFO as an interleaved step system (`FifoHistory`, `FifoProtocol`, `FifoSafety`,
  `FifoTheorems`), what a caller gets from it (`FifoCommands`, `FifoSolo`, `FifoAlone`), what happens to profiling
  points that share an entry (`FifoUpdates`, `FifoLosses`), and, run by one thread, a class updated in place
  (`MemArea`, `LogGroup`, `ProfilerGroup`);
- the overwriting trace ring, both under concurrent writers (`TraceSlots`) and as a class (`TraceGroup`);
- the time-ordered extraction over all groups (`Selection`, `Merge`, `ExtractionOrder`, `Lookahead`, `Extraction`);
- the profiler from a Start/Stop pair to the report (`Profile`, `Batches`, `ProfilerRuns`);
- the name-to-handle tables and the replay of `RT_debug_init` (`Registry`, `RegistryContents`, `DebugGroup`,
  `SharedMemory`, `Adapter`);
- 64-bit time arithmetic, the layout of chunks and the two views of one area (`Machine64`, `Layout`, `AreaViews`);
  `Ring` and `Common` are shared.

## How the code is represented

The concurrent parts are step systems: a state, one atomic step per lock operation, index read, index write
or word copy, and a schedule that picks the thread of each step. Theorems quantify over all schedules. A
history records for each operation its call, the instant it takes effect and its return. A spinning thread is
one whose step leaves the state as it is; locks are atomic and the shared indices sequentially consistent.

The sequential parts are classes with the source's fields. Each method is proved against a function of the
old state, and the lemmas are about those functions. Clock readings are parameters. `ASSERT`s of the source
that constrain the caller are preconditions.

## Where the code does less than it seems to

- A trace extraction starts from whatever the lookahead cells hold. `RTDBG_Stop` resets the log cells and
  leaves the trace cells, although its comment says that it prepares the trace extraction. A drain returns what
  the rings hold if and only if every cell is free, or is marked empty while its ring is empty too
  (`DrainsRingsIff`). The handler is a static object, so the cells start as zeros, and zero reads as data: the
  first drain begins with one empty cell for every group (`FirstDrain`). A finished drain leaves every cell marked empty, and
  nothing frees them: every later extraction by the same handler returns no trace (`SecondDrainIsEmpty`).
- The reset of the log cells loses the logs they hold: it loses none if and only if no cell holds one
  (`ForgetLosesCells`).
- `RTDBG_GetTraceEntry` reads the number of groups before it tests whether the memory is attached, so it may only
  be called attached; `RTDBG_GetLog` tests first.
- `Update` on a full FIFO pops the oldest record over the batch it is about to push and pushes that record
  back: the FIFO rotates and the new batch is lost. The report counts every measurement handed over if and
  only if at most n - 2 batches were handed over since the last drain (`DrainCountExactIff`). When several points
  share an entry, a second failed push also discards a record that was stored. No schedule loses a stored record
  this way if and only if there is at most one thread, or no room for a record at all
  (`StoredRecordsAreSafeIff`); a point's updates lose at most as many as the other threads store
  (`UpdateLosesStored`).
- Beyond n - 2 batches the report covers exactly the first n - 2 (`RunKeepsFirst`, `DrainReportsMeasurements`), and
  since the FIFO has been turned, its start time need not be that of the earliest maximum (`StartTimeCanBeLater`).
- `Update` pushes through a pointer that the process which first registered the entry stored in the shared file;
  `GetProfInfo` pops from the buffer as mapped in its own process. What is pushed is what is popped if and only if
  the pointer is the address of that buffer and no queued chunk shares a byte with the one filled
  (`ViewsAgreeIff`); in an area below 4 GiB only the pointer matters (`ViewsAgreeIffSamePointer`).
- `DiffBetweenTimespec` is exact if and only if the difference is a signed 64-bit number (`DiffIsExactIff`).
- `Init` ignores `max_count`; the README of the library says that the parameter sets the batch size. It is 500.
- Logs go to the group with the raw enum value, traces to the group with the looked-up handle. The two agree
  if and only if the groups already in the memory are the first of the program's list (`EnumIsHandleIff`).
- A trace writer copies into its chunk after releasing the lock. Its chunk is its own exactly as long as fewer
  than n allocations follow its own (`OwnershipIsExclusiveIff`); a writer lapped in mid-copy leaves a mixture of
  two entries behind (`LappedWriterTears`). The ring holds the last n entries after every schedule that has
  finished if and only if there is at most one writer (`EveryScheduleKeepsLastIff`).
- The offset of a chunk is a 32-bit product. `GetEntry` and the chunk methods address the same memory if and only
  if the entry size is a multiple of 64 and the last offset does not wrap (`ChunksAreEntriesIff`), and the chunks
  are apart if and only if no offset wraps (`ChunksAreDisjointIff`).
- The guards of the name tables keep them inside their arrays, except that `RegistryProfileEntry` lets one profiler
  too many through (`GuardsKeepArraysIff`).
- With two chunks the FIFO holds nothing, and `AddLog` can never succeed (`TwoChunksHoldNothing`).

## Model

| member | source | states |
|---|---|---|
| `FifoTheorems.AlwaysLinearizable` | rt_debug/rt_debug_cpp/src/i_cpp_sys_api.h:433-470 | every schedule of any number of pushers, poppers, AddLog and Update callers leaves a linearizable history of a FIFO of n - 2 records: each operation takes effect once between call and return, with the outcome it returns, and the effects in order are a run of an atomic queue |
| `FifoTheorems.AnsweredAtTake` | rt_debug/rt_debug_cpp/src/i_cpp_sys_api.h:438-451 | a failed push saw a full queue when it read rd, a failed pop an empty one when it read wr, a pop got the oldest record, a push appended |
| `FifoTheorems.ChunksStayApart` | rt_debug/rt_debug_cpp/src/i_cpp_sys_api.h:353-390 | in every reachable state the chunk being filled differs from the chunk being copied out and from every queued chunk, and a partial copy is a prefix of the record claimed: no torn or stale read |
| `FifoTheorems.EveryRecordAccountedFor` | rt_debug/rt_debug_cpp/src/rt_debug_types.h:185-195 | over any run the published records are, in order, those taken out followed by those still queued; those taken out are a shuffle of the delivered and of those popped by loops, and these of the ones AddLog discards and the ones Update takes up; between 0 and n - 2 are queued |
| `FifoTheorems.ReturnedIsPrefixOfPublished` | rt_debug/rt_debug_cpp/src/i_cpp_sys_api.h:454-470 | what pops hand back, in the order they return, is a prefix of what was published |
| `FifoTheorems.RetriesBounded` | rt_debug/rt_debug_cpp/src/rt_debug_types.h:185-195 | AddLog and Update are lock-free for n >= 3: over any stretch of any run a thread's failed pushes exceed the successful pushes by at most one, so two failures in a row mean that another thread published |
| `FifoTheorems.TwoChunksHoldNothing` | rt_debug/rt_debug_cpp/src/i_cpp_sys_api.h:158-169 | with two chunks no push ever succeeds |
| `FifoTheorems.LocksAreReleased` | rt_debug/rt_debug_cpp/src/i_cpp_sys_api.h:433-470 | a lock holder scheduled w + 7 times has released its lock, whatever the others do |
| `FifoTheorems.SpinnerWaitsForHolder` | rt_debug/rt_debug_cpp/src/i_cpp_sys_api.h:433-470 | a thread that cannot enter waits for another thread that is inside |
| `FifoCommands.CommandIsDone` | rt_debug/rt_debug_cpp/src/rt_debug_types.h:185-195 | in any run of any threads: from the moment an idle thread is given a command to the next at which it is idle, its events are exactly one push or one pop, or for AddLog rounds of a failed push and a pop and then one successful push of its record, and for Update the same with the record its last successful pop found |
| `FifoCommands.RoundsBounded` | rt_debug/rt_debug_cpp/src/rt_debug_types.h:191-194 | an AddLog or Update call that has ended needed at most one failed round more than the records that other threads published in the meantime |
| `FifoCommands.NothingToDo` | rt_debug/rt_debug_cpp/src/i_cpp_sys_api.h:433-470 | an idle thread without a command does nothing |
| `FifoAlone.AloneResult` | rt_debug/rt_debug_cpp/src/rt_debug_types.h:185-195 | in any reachable state, a thread that carries out a command while the others stand still leaves exactly this queue and outcome: AddLog the last n - 2 of the queue and its record, Update the batch appended or the queue turned by one, a push the record appended when there is room, a pop the oldest record removed and returned |
| `FifoAlone.AloneEnds` | rt_debug/rt_debug_cpp/src/rt_debug_types.h:191-194 | from any reachable state with free locks such a thread is idle again at some point |
| `FifoUpdates.EveryRecordHandedOverIsSomewhere` | rt_debug/rt_debug_cpp/src/rt_debug_types.h:280-292 | over any run with any number of updating points, each record handed over is, as often as it was, queued, delivered, discarded by AddLog, overwritten by Update before or after it was first stored, or in the hands of a loop, and in no hands once all threads are idle |
| `FifoUpdates.UpdateLosesStored` | rt_debug/rt_debug_cpp/src/rt_debug_types.h:286-289 | the stored records that one thread's Updates overwrite are no more than the records the other threads publish: alone, Update loses no stored record |
| `FifoLosses.UpdateCanLoseStored` | rt_debug/rt_debug_cpp/src/rt_debug_types.h:286-289 | for every n >= 3 and all records there is a schedule in which one Update loses its own batch and the oldest stored record |
| `FifoLosses.StoredRecordsAreSafeIff` | rt_debug/rt_debug_cpp/src/rt_debug_types.h:280-292 | no schedule makes an Update lose a stored record if and only if there is at most one thread or the ring has two chunks |
| `FifoSafety.Reachable` | rt_debug/rt_debug_cpp/src/i_cpp_sys_api.h:353-390 | the rely-guarantee invariant holds in every state of every schedule: locks name their holders, every stage's knowledge is right, memory between the indices is the atomic queue |
| `FifoSafety.TakeEffect` | rt_debug/rt_debug_cpp/src/i_cpp_sys_api.h:353-390 | one step changes the queue exactly as the atomic queue would at the operation's effect, and no other step changes it |
| `FifoSafety.OwnStep` | rt_debug/rt_debug_cpp/src/i_cpp_sys_api.h:353-390 | the stepping thread keeps what it knows about indices and copied words, and its call, effect and return alternate |
| `FifoProtocol.Step` | rt_debug/rt_debug_cpp/src/i_cpp_sys_api.h:353-390 | one thread's atomic step; it keeps the shape of memory and the number of threads |
| `Ring.Publish` | rt_debug/rt_debug_cpp/src/i_cpp_sys_api.h:358-369 | advancing wr appends the chunk it leaves and is possible exactly when the queue is not full |
| `Ring.Claim` | rt_debug/rt_debug_cpp/src/i_cpp_sys_api.h:378-386 | advancing rd removes the oldest chunk and is possible exactly when the queue is not empty |
| `Ring.ChunksRepeatByLaps` | rt_debug/rt_debug_cpp/src/i_cpp_sys_api.h:471-481 | allocations fewer than n apart get different chunks, allocations n apart the same |
| `TraceSlots.OwnershipIsExclusiveIff` | rt_debug/rt_debug_cpp/src/rt_debug_types.cc:61-80 | in every schedule a writer's chunk was handed to no later allocation exactly as long as fewer than n followed its own |
| `TraceSlots.LappedWriterTears` | rt_debug/rt_debug_cpp/src/rt_debug_types.cc:61-80 | for every number of chunks, of words and every point of interruption inside the copy there is a schedule with n + 1 allocations after which every writer has finished and a chunk holds the first words of one entry and the last words of another |
| `TraceSlots.EveryScheduleKeepsLastIff` | rt_debug/rt_debug_cpp/src/rt_debug_types.cc:61-80 | after every schedule whose writers have all finished the ring holds the last n entries, if and only if there is at most one writer |
| `TraceSlots.RingKeepsLastEntries` | rt_debug/rt_debug_cpp/src/rt_debug_types.cc:61-80 | if no writer is ever lapped, then once all have finished the ring is exactly the last n entries by lock order, whatever the interleaving of the copies |
| `TraceSlots.LapFreeIntact` | rt_debug/rt_debug_cpp/src/rt_debug_types.cc:61-80 | at every moment of a lap-free schedule partial copies are in place and finished entries of the last n are whole |
| `TraceSlots.Step` | rt_debug/rt_debug_cpp/src/i_cpp_sys_api.h:471-481 | one writer's atomic step: allocate under the lock; after it make up the stamped entry and copy it word by word |
| `MemAreas.MemArea.Setup` | rt_debug/rt_debug_cpp/src/i_cpp_sys_api.h:158-169 | a new area is an empty FIFO with rd = 0 and wr = 1 |
| `MemAreas.MemArea.Push` | rt_debug/rt_debug_cpp/src/i_cpp_sys_api.h:433-453 | succeeds exactly when fewer than n - 2 records are queued, and then appends; otherwise nothing changes |
| `MemAreas.MemArea.Pop` | rt_debug/rt_debug_cpp/src/i_cpp_sys_api.h:454-470 | returns and removes the oldest record, or nothing from an empty FIFO |
| `MemAreas.MemArea.AllocPoolChunk` | rt_debug/rt_debug_cpp/src/i_cpp_sys_api.h:471-481 | hands out the cyclically next chunk |
| `MemAreas.PushDroppingOldest` | rt_debug/rt_debug_cpp/src/rt_debug_types.h:191-194 | alone, the retry loop ends and the FIFO holds the newest records that fit |
| `MemAreas.PushAllKeepsLast` | rt_debug/rt_debug_cpp/src/rt_debug_types.h:185-195 | after any history of k such pushes the queue is the last min(k, n - 2) records in order |
| `LogGroups.LogGroup.AddLog` | rt_debug/rt_debug_cpp/src/rt_debug_types.h:185-195 | the log is appended with its time stamp, dropping the oldest when there is no room |
| `LogGroups.LogGroup.GetLogEntry` | rt_debug/rt_debug_cpp/src/rt_debug_types.h:197-212 | returns and removes the oldest log |
| `Machine64.DiffBetweenTimespec` | rt_debug/rt_debug_cpp/src/rt_debug_types.h:27-36 | despite unsigned wrap the result is the exact difference in nanoseconds, a second counting 1000000000, for all normalised times below 2^63 ns |
| `Machine64.DiffOrdersLexicographically` | rt_debug/rt_debug_cpp/src/rt_debug_types.h:27-36 | its sign is the lexicographic order of (sec, nsec), a strict total preorder |
| `Machine64.DiffIsExactIff` | rt_debug/rt_debug_cpp/src/rt_debug_types.h:27-36 | for readings of any size the result is exact if and only if the difference is a signed 64-bit number; below 2^64 ns that is also exactly when its sign is right |
| `Machine64.DiffWrapsAt2To63` | rt_debug/rt_debug_cpp/src/rt_debug_types.h:27-36 | so 2^63 ns after the origin compares as earlier than the origin, and one nanosecond less is still exact |
| `Layout.AlignSizeIsLeastMultiple` | rt_debug/rt_debug_cpp/src/i_osa_api.h:44-45 | for every power of two ALIGN_SIZE is the least multiple not below its argument |
| `Layout.AlignSizeCoversIff` | rt_debug/rt_debug_cpp/src/i_osa_api.h:44-45 | on a 32-bit operand ALIGN_SIZE is not below it if and only if the sum does not wrap, and is zero when it does |
| `Layout.ChunksAreDisjointIff` | rt_debug/rt_debug_cpp/src/i_cpp_sys_api.h:409-418 | no two of the n chunks overlap if and only if the last offset fits 32 bits |
| `Layout.ChunksAreEntriesIff` | rt_debug/rt_debug_cpp/src/i_cpp_sys_api.h:405-432 | chunk i and entry i are the same memory for all i exactly when the entry size is a multiple of 64 and size * (n - 1) fits 32 bits |
| `Layout.ChunksInsideIff` | rt_debug/rt_debug_cpp/src/i_cpp_sys_api.h:405-432 | with an entry size that is a multiple of 64 every chunk lies inside the buffer; while no offset wraps the last chunk does so only then |
| `AreaViews.PushFootprint` | rt_debug/rt_debug_cpp/src/i_cpp_sys_api.h:353-373 | a push fails exactly on a full queue and then changes no byte and no index; when it succeeds it changes only the bytes of the chunk at wr |
| `AreaViews.ViewsAgreeIff` | rt_debug/rt_debug_cpp/src/i_cpp_sys_api.h:254-257 | while there is room, what is pushed through the stored pointer is, byte for byte, what the view of the buffer finds appended, for every record, if and only if the pointer is the address of the buffer and no queued chunk shares a byte with the chunk filled |
| `AreaViews.ViewsAgreeIffSamePointer` | rt_debug/rt_debug_cpp/src/i_cpp_sys_api.h:254-257 | when no offset wraps, if and only if the pointer is the address of the buffer |
| `Selection.EarliestFinds` | rt_debug/rt_debug_cpp/src/rt_debug_types.cc:88-103 | the scan finds the first of the earliest candidates, and nothing only when none precedes the clock |
| `TraceGroups.TraceGroup.Reset` | rt_debug/rt_debug_cpp/src/rt_debug_types.cc:14-38 | every slot is empty, one default format, write index 1 |
| `TraceGroups.TraceGroup.AddTrace` | rt_debug/rt_debug_cpp/src/rt_debug_types.cc:61-80 | the cyclically next slot is overwritten with the stamped record, the others stay; a ring that stores a history stores that history with the new record after it |
| `TraceGroups.TraceGroup.GetTraceEntry` | rt_debug/rt_debug_cpp/src/rt_debug_types.cc:82-123 | returns the oldest live entry and marks its slot empty, or returns nothing and changes nothing |
| `TraceGroups.ExtractsInOrder` | rt_debug/rt_debug_cpp/src/rt_debug_types.cc:82-123 | repeated calls return every due entry once, by time and then slot |
| `TraceGroups.KeepsLastRecords` | rt_debug/rt_debug_cpp/src/rt_debug_types.cc:61-123 | after any history of k AddTrace calls with increasing timestamps, repeated GetTraceEntry returns the last min(k, n) records in insertion order, then nothing |
| `Merge.MergeKeepsQueues` | rt_debug/rt_debug_cpp/src/rt_debug_main.h:277-324 | draining the merge is a shuffle that keeps each group's order and loses or repeats nothing |
| `Merge.MergeSorts` | rt_debug/rt_debug_cpp/src/rt_debug_main.h:277-324 | the output is sorted by time, ties by group, whenever each group's queue is sorted by time |
| `Merge.SortedShuffleUnique` | rt_debug/rt_debug_cpp/src/rt_debug_main.h:277-324 | such an output is unique, so the merge is the global sort that keeps each group's order |
| `Merge.MergeLength` | rt_debug/rt_debug_cpp/src/rt_debug_main.h:236-239 | a drain makes exactly as many successful calls as there are entries |
| `Extraction.DebugHandler.Static` | rt_debug/rt_debug_cpp/src/rt_debug_main.h:20-63 | the handler a program starts with: zeroed trace cells, invalid log cells, not attached |
| `Extraction.DebugHandler.GetTraceEntry` | rt_debug/rt_debug_cpp/src/rt_debug_main.cc:126-184 | for any table of cells one call outputs the first earliest head of the groups' remaining queues and advances that queue only; the cells and rings it leaves are those of `NextTrace`; nothing happens while collection is active |
| `Extraction.DebugHandler.ScanTraces` | rt_debug/rt_debug_cpp/src/rt_debug_main.cc:142-169 | the scan asks every group with a free cell, and finds the first earliest head |
| `Extraction.DebugHandler.ExtractTraces` | rt_debug/rt_debug_cpp/src/rt_debug_main.h:228-231 | the trace loop ends and outputs the whole merge; it leaves every cell marked empty, outputs nothing from such cells, and from free cells outputs every live entry in the global order |
| `Extraction.DebugHandler.GetLog` | rt_debug/rt_debug_cpp/src/rt_debug_main.h:277-324 | with a full mask one call outputs the first earliest head of the groups' remaining logs and advances that group only |
| `Extraction.DebugHandler.ScanLogs` | rt_debug/rt_debug_cpp/src/rt_debug_main.h:287-315 | the scan asks every group with a free cell, and finds the first earliest head |
| `Extraction.DebugHandler.ExtractLogs` | rt_debug/rt_debug_cpp/src/rt_debug_main.h:236-239 | the log loop ends and outputs the whole merge |
| `Extraction.DebugHandler.Stop` | rt_debug/rt_debug_cpp/src/rt_debug_main.h:146-154 | collection stops and every log cell is forgotten; the trace cells stay as they are |
| `ExtractionOrder.DrainIsGlobalSort` | rt_debug/rt_debug_cpp/src/rt_debug_main.cc:126-184 | the merge of the rings contains every live entry of every group exactly once, sorted by (timestamp, group index, slot index) |
| `ExtractionOrder.NextKeyIsFirst` | rt_debug/rt_debug_cpp/src/rt_debug_main.cc:142-181 | one-entry lookahead over per-group selection picks the globally first entry |
| `Lookahead.NextTraceMerges` | rt_debug/rt_debug_cpp/src/rt_debug_main.cc:126-184 | seen from the groups' remaining queues, one call on any table of cells is one step of the merge |
| `Lookahead.DrainMerges` | rt_debug/rt_debug_cpp/src/rt_debug_main.h:228-231 | a drain returns the merge of the remaining queues, and nothing is left to merge |
| `Lookahead.FreeCellsDrainSorted` | rt_debug/rt_debug_cpp/src/rt_debug_main.cc:126-184 | from free cells a drain returns every live entry of every group exactly once, sorted by (timestamp, group index, slot index) |
| `Lookahead.DrainsRingsIff` | rt_debug/rt_debug_cpp/src/rt_debug_main.h:45-54 | a drain returns that sorted sequence if and only if every cell it starts from is free, or is marked empty while its ring is empty |
| `Lookahead.SecondDrainIsEmpty` | rt_debug/rt_debug_cpp/src/rt_debug_main.cc:148-159 | after a finished drain the same cells yield nothing ever again, whatever has been traced since |
| `Lookahead.NextLogMerges` | rt_debug/rt_debug_cpp/src/rt_debug_main.h:277-324 | with a full mask one call is one step of the merge of the remaining logs |
| `Lookahead.ForgetLosesCells` | rt_debug/rt_debug_cpp/src/rt_debug_main.h:45-54 | resetting the log cells leaves what the FIFOs hold; it loses no log if and only if no cell holds one |
| `Lookahead.ZeroCellsComeOutFirst` | rt_debug/rt_debug_cpp/src/rt_debug_main.h:40-54 | from the zeroed cells of a static handler the first output is the zero cell |
| `Lookahead.FirstDrain` | rt_debug/rt_debug_cpp/src/rt_debug_main.h:40-54 | from the zeroed cells a drain over stamped entries returns one zero cell for every group in group order, and then what the rings hold, sorted |
| `Lookahead.OutstandingIsTotal` | rt_debug/rt_debug_cpp/src/rt_debug_main.h:228-231 | live slots plus occupied cells equals the number of entries still to come |
| `Lookahead.StepUsesUpOne` | rt_debug/rt_debug_cpp/src/rt_debug_main.h:228-231 | that sum falls by one with every successful call, and a call finds nothing if and only if it is zero, and leaves it zero |
| `Lookahead.LogStepUsesUpOne` | rt_debug/rt_debug_cpp/src/rt_debug_main.h:236-239 | queued logs plus occupied cells falls by one with every successful call, and a call finds nothing if and only if it is zero |
| `ExtractionOrder.LaterClockSameOrder` | rt_debug/rt_debug_cpp/src/rt_debug_types.cc:88-103 | later clock readings do not change the order of extraction |
| `Profile.ProfileCnt.Init` | rt_debug/rt_debug_cpp/src/rt_debug_types.h:231-279 | no data, no running segment, 500 measurements a batch whatever max_count is |
| `Profile.ProfileCnt.Update` | rt_debug/rt_debug_cpp/src/rt_debug_types.h:280-292 | ends; the batch with its floored average is appended when there is room, otherwise the FIFO rotates by one; the point is emptied |
| `Profile.ProfileCnt.Start` | rt_debug/rt_debug_cpp/src/rt_debug_types.h:293-313 | a segment starts |
| `Profile.ProfileCnt.StopContinue` | rt_debug/rt_debug_cpp/src/rt_debug_types.h:357-373 | the segment's length is added to the accumulator |
| `Profile.ProfileCnt.Stop` | rt_debug/rt_debug_cpp/src/rt_debug_types.h:379-432 | the measured or given value is counted, the segment state cleared, and a complete batch handed over |
| `Profile.QueueAfterUpdate` | rt_debug/rt_debug_cpp/src/rt_debug_types.h:286-289 | on a full FIFO Update keeps the multiset of records |
| `Profile.SegmentedMeasurement` | rt_debug/rt_debug_cpp/src/rt_debug_types.h:293-412 | for any run Start (StopContinue Start)* Stop on a monotone positive clock the wrapping arithmetic yields the sum of the segments minus delta, or 20 when that is negative, and nothing leaks into the next measurement |
| `Batches.MaxIsEarliestMaximum` | rt_debug/rt_debug_cpp/src/rt_debug_types.h:419-423 | the kept maximum is the maximum and, when positive, the kept time is that of its earliest occurrence |
| `Batches.FlooringLoss` | rt_debug/rt_debug_cpp/src/rt_debug_types.h:284 | flooring the batch averages loses less than one per measurement |
| `Batches.CollectBatches` | rt_debug/rt_debug_cpp/src/rt_debug_types.h:514-529 | combining the records of batches gives the exact count, the exact maximum with its start time, and the weighted sum |
| `Batches.AverageWithinOne` | rt_debug/rt_debug_cpp/src/rt_debug_types.h:505-537 | for any batches without overflow the reported average is the floor of the true mean or one below it, the former exactly when the flooring loss fits the remainder, and never above the maximum |
| `ProfilerGroups.GetProfInfo` | rt_debug/rt_debug_cpp/src/rt_debug_types.h:505-537 | the FIFO is drained, and its records combined are reported, or nothing when there are none |
| `ProfilerGroups.CollectRecords` | rt_debug/rt_debug_cpp/src/rt_debug_types.h:514-529 | the loop empties the FIFO and combines every record that has measurements, in order |
| `ProfilerGroups.AddProfData` | rt_debug/rt_debug_cpp/src/rt_debug_types.h:539-547 | the record is appended, dropping the oldest when there is no room |
| `ProfilerRuns.RunSimulates` | rt_debug/rt_debug_cpp/src/rt_debug_types.h:280-432 | for any valid run of the operations the 64-bit fields and the FIFO agree with a reference that keeps every measurement; each batch is stored or dropped whole and the counts balance |
| `ProfilerRuns.Perform` | rt_debug/rt_debug_cpp/src/rt_debug_types.h:280-432 | the methods of the point and of the group do to the fields and the FIFO what the runs are made of |
| `ProfilerRuns.RunGoesOn` | rt_debug/rt_debug_cpp/src/rt_debug_types.h:293-432 | the runs covered: any operation may follow on a monotone clock below 2^63, Start when no segment runs, Stop and StopContinue when one does, while the sums between two drains fit 64 bits; a flush or a drain always |
| `ProfilerRuns.DrainCountExactIff` | rt_debug/rt_debug_cpp/src/rt_debug_types.h:280-292 | the drained count is that of all measurements since the last drain minus pending minus dropped ones, and nothing handed over is missing if and only if at most n - 2 batches were |
| `ProfilerRuns.RunKeepsFirst` | rt_debug/rt_debug_cpp/src/rt_debug_types.h:286-289 | after any valid run the FIFO holds exactly the first n - 2 batches handed over since the last drain, turned by one for every batch beyond, and those beyond are the dropped ones |
| `ProfilerRuns.DrainReportsMeasurements` | rt_debug/rt_debug_cpp/src/rt_debug_types.h:505-537 | after any valid run that handed over a batch, the report gives the exact count and maximum of the first n - 2 batches, an average within one of their floored mean and never above the maximum, and the start time of the first maximum in the order the FIFO holds them, which is the earliest when at most n - 2 batches were handed over |
| `ProfilerRuns.StartTimeCanBeLater` | rt_debug/rt_debug_cpp/src/rt_debug_types.h:514-529 | a run after which the reported start time is not that of the earliest maximum the report covers |
| `Registry.ReplayLocates` | rt_debug/rt_debug_cpp/src/rt_debug_types.h:676-692 | after the registrations every name is found with the handle returned for it |
| `Registry.ReplayIsStable` | rt_debug/rt_debug_c/rt_adapt.c:63-121 | handles never change: replaying a list over any later state of the tables changes no table, ring, FIFO or counter and returns the handles of the first run |
| `Registry.ReplayIsIdempotent` | rt_debug/rt_debug_c/rt_adapt.c:63-121 | a second replay changes nothing, and a replay changes nothing if and only if the tables hold the names already |
| `Registry.HandlesNameTheirEntries` | rt_debug/rt_debug_cpp/src/rt_debug_types.h:74-101 | within a table handles are equal exactly for equal names |
| `Registry.EnumIsHandleIff` | rt_debug/rt_debug_c/rt_adapt.c:84-121 | enum values and looked-up handles agree for all groups exactly when the groups already in memory are the first of the list; on fresh memory always |
| `Registry.Replay` | rt_debug/rt_debug_c/rt_adapt.c:82-106 | one handle per registration; a group's handle lies in the table |
| `Registry.ReplayGrows` | rt_debug/rt_debug_c/rt_adapt.c:82-106 | every table keeps the names it had where they were |
| `Registry.ReplayIsDense` | rt_debug/rt_debug_c/rt_adapt.c:82-106 | over any tables, every group, counter, format and profiler that a replay added has a handle that some registration of the list returned |
| `RegistryContents.RegisterTouchesOne` | rt_debug/rt_debug_cpp/src/rt_debug_types.h:676-692 | a registration adds at most one group or, in the group it names, one entry of the table of its kind; everything else, logs and rings included, stays as it is |
| `RegistryContents.ReplayOnlyGrows` | rt_debug/rt_debug_c/rt_adapt.c:82-106 | over any memory a replay leaves every log, ring and table entry that was there as it was; a group it adds has no logs, 1000 slots and none live, the default format, new counters at -1 and new profilers empty |
| `RegistryContents.ReplayNames` | rt_debug/rt_debug_c/rt_adapt.c:82-106 | after a replay every table holds, in order, the names it held and then the new names of the list, each once |
| `RegistryContents.FormatsCountFromOne` | rt_debug/rt_debug_cpp/src/rt_debug_types.cc:26-28 | in a new group a format has handle 0 if and only if it is the default format |
| `DebugGroups.DebugGroup.Init` | rt_debug/rt_debug_cpp/src/rt_debug_types.h:567-584 | a group's log holds 126 logs and its ring 1000 entries, both empty, as the tables record of a new group |
| `Registry.ArraysHold` | rt_debug/api/rt_debug_defs.h:16-21 | the tables fit their arrays if and only if there are at most 10 groups, 19 counters, 50 formats and 50 profilers |
| `Registry.GuardsKeepArraysIff` | rt_debug/rt_debug_cpp/src/rt_debug_types.h:478-493 | the tables stay inside their arrays if and only if the guard lets the registration through and it is not a new profiler beside a full table |
| `SharedMemory.FindOrAdd` | rt_debug/rt_debug_cpp/src/rt_debug_types.h:676-692 | the search loop returns the handle of a known name and appends a new one |
| `SharedMemory.DebugRT.Perform` | rt_debug/rt_debug_cpp/src/rt_debug_types.h:478-493 | a registration that its guard lets through updates exactly the table it names |
| `Adapter.AdapterTables.RtDebugInit` | rt_debug/rt_debug_c/rt_adapt.c:63-110 | the tables and handles are those of the replay over the existing memory, or over empty memory when the file does not exist; collection is on |
| `Adapter.AttachAgain` | rt_debug/rt_debug_c/rt_adapt.c:66-110 | a second process registering the same list finds and leaves everything as it was |

## Left out

- Creating, mapping and closing the shared file: operating-system calls; the memory simply survives.
- Text formatting of entries and the sizes of string buffers: records carry their fields, names are unbounded strings.
- The calibration of `delta_` and the cycle counter: `delta_` is any value below 2^63 and the clock a parameter.
- The inside of spinlocks and hardware memory ordering: locks are atomic steps, indices sequentially consistent.
- `RT_debug_get_grp_log`: the merge reads invalid cells for a partial mask, so it has no clean contract.
- `DualBufSwap`, zero-copy `PushFIFO`/`PopFIFO`, `GetPrevChunk` and the heap branch of `MemAlloc`: unused.
- Values of event counters: the application reads and writes them through plain pointers.
- `ForceStop`, `SetMaxCalls` and the `EXTERN_C` wrappers: they forward or assign.
- SharedMemory.DebugRT.Perform: promises nothing for the one profiler too many that its guard lets through; the code then writes past the array.
- Extraction.DebugHandler.GetTraceEntry: the handler's and the groups' clock readings of one call are one parameter; `LaterClockSameOrder` shows that later readings give the same order.
- MemAreas.MemArea.Push: one array of chunks stands for both views of the area, as in all FIFO models; `ViewsAgreeIff` says when that is right. The areas of the library are far below 4 GiB.
- Registry.Replay: carries the rings and FIFOs of a group as values, to say that it leaves them alone; the objects that a `DebugHandler` extracts from are not tied to these values.
- ProfilerRuns.RunSimulates: one point on its FIFO, run alone; `FifoUpdates` and `FifoLosses` have several points, without their measurements.
