# Verified models of cSpockBot

This project models the parts of cSpockBot, a Minecraft client runtime in C, whose correctness cannot be settled by looking
at one function, and proves what they promise. Five components are covered.

* **Fiber runtime** (`src/fibers`). `Ring` runs the bounded multi-producer/multi-consumer ring as a
  step relation, one step per atomic load, compare-and-swap or store, with a program counter per
  thread and any number of threads; `RingBuf` is the same code run one call at a time, as a class.
  `Parking` is the spin/park protocol between enqueuers and workers. `Scheduler` is the fiber
  scheduler with its completion counters over atomic queues, and `SchedulerRuns` says what happens
  along whole executions of it. Main results are invariants of every
  interleaving.
* **NBT** (`src/cNBT`, and the walker and size functions in `src/datautils.c`). `NbtTree` says what
  the parser and dumper compute, `NbtWire` writes the format down on its own in plain numbers and
  ties both to it, `NbtCodec` proves round trip and normalisation, `NbtStable` what becomes of
  truncated input and what can be dumped, `NbtParser` and
  `NbtDumper` are the code with its moving cursor and growing buffer (`Buffer`, `Endian`) proved
  equal to those functions, `NbtWalk` is the independent length walker, `NbtWalkExact` says
  when it accepts what the parser accepts and `NbtWalkBounds` when it reads outside its buffer,
  `NbtSize` is the size functions. `NbtOps` holds filtering and path lookup on values; `NbtHeap`, `NbtFilter` and
  `NbtCopy` are freeing, in-place filtering and copying filtering on an explicit memory of
  allocated blocks and circular doubly linked lists.
* **uthash** (`include/uthash.h`). `UtSortSpec` and `UtSort` are the in-place list mergesort,
  `UtList` and `UtBuckets` the two kinds of linked chains, `UtTable` the table: add, find, delete,
  doubling, sort, and whole runs of them. Items are addresses; each `UT_hash_handle` field is a map
  from address to value, so that links really are overwritten in place and may alias.
* **Framing, varints and positions** (`src/net/sb_net.c`, `src/datautils.c`). `Varint`, `Framing`
  (the decoder as a function of the stream), `NetBuf` (the sliding buffer and read callback),
  `NetSend` (the header encoder), `Position`.
* **sds and the event registry** (`src/sds.c`, `src/event/sb_event.c`). `SdsString`, `SdsQuote`,
  `SdsGrammar` (the language of the argument splitter as a grammar of its own), `SdsSplit`,
  `Registry`.

`Bits` and `Wrappers` hold shared arithmetic and the option type. Masks such as `x & (size - 1)`
are a bitwise function, proved to be the remainder for powers of two (`Bits.MaskIsSlot`).
`dafny verify dfyconfig.toml` checks everything.

Findings, where the code does not do what one would expect; each is a lemma that says exactly when
the property does hold:

* `size_varint` is one short on 128..255 (`Varint.SizeIsLength`), so a packet whose id is in that
  range does not survive framing (`Framing.StreamRoundTripIff`), and a header buffer sized with
  `sbnet_size_uncom_hdr` is too small exactly when the id or the size field is in that range
  (`NetSend.HeaderRoom`).
* Delivery does not depend on how TCP cuts the stream if and only if every frame size of -1, which
  the decoder confuses with its own "no size yet" mark, is followed by no more than the beginning of
  a number (`Framing.ChunkingIff`).
* The length walker passes the whole limit of a list on to its elements, without the five header
  bytes. It reads outside its buffer exactly when it meets a header there that a limit five bytes
  too large for each enclosing list still admits (`NbtWalkBounds.OverreadIff`), for example on the
  eight bytes of `NbtWalkBounds.OverreadsByTwo`, and there is no bound on how far
  (`NbtWalkBounds.OverreadIsUnbounded`). What it accepts is not affected
  (`NbtWalkBounds.LeakOnlyOverreads`), and without lists it stays inside
  (`NbtWalkBounds.NoListNoOverread`).
* The walker accepts more than the parser: long arrays, string lengths of 32768 and more and array
  counts of 2^31 and more (`NbtWalkExact.ParserAcceptsIff`).
* `vgc_wait_for_counter` loses a fiber exactly when it records a waiter on a full list
  (`Scheduler.LostOnlyByOverflow`), and that does happen (`SchedulerRuns.FiberCanBeLost`).
* `size_nbt` is five bytes short for every list in the tree (`NbtSize.SizeLaw`).
* A tree filtered by copying dumps like one filtered in place when no list is empty after filtering,
  that is, when every list kept with its ancestors has an element to keep; otherwise it cannot be
  dumped at all, because the copy drops the sentinel's type (`NbtOps.FilteredCopyDumps`).
* After a handle is unregistered, later registrations get distinct handles if and only if it was
  live (`Registry.SharedHandleIff`); if not, two of them get the same one and the earlier callback is
  overwritten (`Registry.CallbackIsOverwritten`).
* Text in single quotes with its apostrophes escaped reads back if and only if it does not end in a
  backslash (`SdsGrammar.SingleQuotesComeBackIff`).
* `sdssplitlen` does not invert `sdsjoinsds` on the single empty token, nor on tokens that show the
  separator early (`SdsSplit.JoinThenSplit`).

## Model

| member | source | states |
|---|---|---|
| `Bits.MaskIsSlot` | include/uthash.h:441-444 | masking with a power of two minus one is the remainder, for every value and every power: the index computation of the hash table and of the ring |
| `Ring.NextInv` | src/fibers/queue.c:36-78 | every atomic step of every thread keeps the per-cell cycle free, writing, full, reading, free one lap later, encoded in `seq` |
| `Ring.RunInv` | src/fibers/queue.c:9-78 | the cycle holds in every state of every interleaving of any number of threads |
| `Ring.DataExclusion` | src/fibers/queue.c:52-75 | in every interleaving two threads are never inside the data access of one cell |
| `Ring.NothingLostOrDuplicated` | src/fibers/queue.c:36-78 | each position below tail was claimed by one pusher and each below head by one popper; a delivered value is the one pushed at that position; a position in between is in its cell or with its pusher |
| `Ring.DeliveredOnce` | src/fibers/queue.c:57-78 | claims and deliveries are never taken back, and no position is delivered twice |
| `Ring.ClaimIsOfTheArgument` | src/fibers/queue.c:36-54 | in every interleaving a claim records the argument of the push call the claiming thread is in, through every reload and retry |
| `Ring.DeliveredIsTheArgument` | src/fibers/queue.c:36-78 | in every interleaving a delivered value is the argument of the one push call that claimed its position |
| `Ring.PushReturns` | src/fibers/queue.c:46-54 | a push call ends by giving up on a full ring, or with its argument published at the position it claimed |
| `Ring.FailingPushIsJustified` | src/fibers/queue.c:38-51 | a push gives up at its load of `seq` if and only if its position equals tail and the tenant one lap earlier has not gone |
| `Ring.FailingPopIsJustified` | src/fibers/queue.c:59-72 | a pop gives up at its load of `seq` if and only if its position equals head and is not published |
| `RingBuf.Ringbuf.constructor` | src/fibers/queue.c:9-21 | an initialised ring of power-of-two size at least 2 is the empty queue |
| `RingBuf.Ringbuf.Push` | src/fibers/queue.c:36-55 | one call at a time: appends to the queue, and fails if and only if `size` entries are queued |
| `RingBuf.Ringbuf.Pop` | src/fibers/queue.c:57-78 | one call at a time: takes the oldest entry, and fails if and only if the queue is empty |
| `RingBuf.QueueFront` | src/fibers/queue.c:73-77 | the cell at head holds the oldest entry, and advancing head drops exactly that one |
| `Parking.NextInv` | src/fibers/queue.c:80-91 | every shared access of enqueuers and workers keeps the cover: a queue with an unserved entry has an enqueuer that will still broadcast or a worker that will still look |
| `Parking.RunInv` | src/fibers/scheduler.c:162-183 | the cover holds in every state of every run |
| `Parking.NoLostWakeup` | src/fibers/scheduler.c:167-183 | if every worker sleeps and no enqueuer is between its push and the end of its broadcast, all three queues are empty |
| `Parking.SkippedBroadcastIsSafe` | src/fibers/queue.c:84-89 | an enqueuer that reads `is_waiter` as 0 may skip the broadcast: some worker is awake outside the check loop |
| `Parking.BroadcastCovers` | src/fibers/queue.c:86-88 | after a broadcast under the mutex no worker is asleep or inside the check loop, so every queue is covered |
| `Scheduler.NextInv` | src/fibers/scheduler.c:40-217 | every step keeps the one-place and the counter invariants |
| `Scheduler.ExecutionInv` | src/fibers/scheduler.c:137-219 | both invariants hold in every state of every execution from an initialised scheduler |
| `Scheduler.OnePlace` | src/fibers/scheduler.c:40-69 | every fiber is in exactly one place and there exactly once: the free pool, one priority queue, in the hands of one worker, on one waiter list, retired, or lost by overflow |
| `Scheduler.NoSharedFiber` | src/fibers/scheduler.c:184-217 | no fiber is in the hands of two workers |
| `Scheduler.NoErrorExit` | src/fibers/scheduler.c:63-68 | no worker of any execution ever takes the error exit, with one worker or many |
| `Scheduler.NoPanic` | src/fibers/scheduler.c:48-68 | no push of a fiber, to a priority queue or back to the pool, finds its ring full |
| `Scheduler.RoomWhileHolding` | src/fibers/scheduler.c:212-216 | while a worker holds a fiber, every ring has room for it |
| `Scheduler.CounterCounts` | src/fibers/scheduler.c:86-98 | a counter is the number of its children that have not finished plus the jobs not yet started; after a successful loop it is exactly the unfinished children |
| `Scheduler.LoopOwes` | src/fibers/scheduler.c:92-97 | while the scheduling loop runs, the jobs a counter still owes are the rest of the loop |
| `Scheduler.ZeroIsFinal` | src/fibers/scheduler.c:193-196 | along every execution a counter only goes down and never below zero, so zero is reached at most once |
| `Scheduler.NoStrandedWaiter` | src/fibers/scheduler.c:196-212 | a counter at zero whose lock is free has no waiter left |
| `Scheduler.WokenAfterLastChild` | src/fibers/scheduler.c:196-210 | a waiter leaves the list only when the counter is zero and no child is unfinished, and goes to the queue of its own priority |
| `SchedulerRuns.WokenExactlyOnce` | src/fibers/scheduler.c:196-212 | between being recorded and any later state with the counter at zero and unlocked, a waiter leaves the list at exactly one step, for the queue of its priority, and never returns to it |
| `SchedulerRuns.WaitWaits` | src/fibers/scheduler.c:103-135 | when a fiber that called a wait runs again for the first time, the counter has been at zero since the call, or the wait was the checked one and found the list full |
| `SchedulerRuns.WhereJobsBelong` | src/fibers/scheduler.c:44-61 | every queued fiber is in the queue of its priority, a retired one had no counter to report to, one on its way back to the pool has |
| `SchedulerRuns.QueuedByPriority` | src/fibers/scheduler.c:48-57 | the same read off the queues |
| `SchedulerRuns.JobsInOrder` | src/fibers/scheduler.c:94-97 | the scheduling loop takes the jobs in order and skips none |
| `SchedulerRuns.JobIsQueued` | src/fibers/scheduler.c:40-62 | the n-th job of a call becomes a fiber of that priority and counter at the end of that queue |
| `SchedulerRuns.RecycledOnlyWithParent` | src/fibers/scheduler.c:193-217 | a fiber returns to the pool only if its job had a counter |
| `SchedulerRuns.PoolsAreFifo` | src/fibers/scheduler.c:167-169 | every queue, the pool and every waiter list is first in, first out |
| `SchedulerRuns.FiberCanBeLost` | src/fibers/scheduler.c:103-113 | for every number of fibers from six on there is an execution in which five unchecked waits on one counter lose a fiber |
| `Scheduler.LostOnlyByOverflow` | src/fibers/scheduler.c:32-38 | a step loses a fiber if and only if it records a waiter on a full list, which only the unchecked wait can do |
| `NbtCodec.RoundTrip` | src/cNBT/nbt_parsing.c:595-781 | for every well-formed tree and every suffix, parsing the dump followed by the suffix gives the tree and leaves the suffix |
| `NbtCodec.BodyRoundTrip` | src/cNBT/nbt_parsing.c:357-421 | the same for the payload of every tag type |
| `NbtCodec.Normalisation` | src/cNBT/nbt_parsing.c:126-171 | on any byte string the parser accepts: the tree is well formed, has at most one node per byte consumed, and dumping and parsing it again gives the same tree |
| `NbtCodec.PayloadNormal` | src/cNBT/nbt_parsing.c:259-421 | the same for every payload, with the type asked for; negative counts, type 0 and embedded NULs included |
| `NbtWire.WireIsRead` | src/cNBT/nbt_parsing.c:126-171 | for every tree the format can carry, the dumper writes exactly the wire format, given in plain numbers, and the parser reads it back, whatever follows |
| `NbtWire.CarriedIffGood` | src/cNBT/nbt_parsing.c:230-257 | the trees parser and dumper deal in are exactly those the format can carry |
| `NbtWire.NumbersRead` | src/cNBT/nbt_parsing.c:371-388 | tags 1 to 6 are read as 1, 2, 4, 8, 4 and 8 bytes, for every value and suffix |
| `NbtWire.ByteArraysRead` | src/cNBT/nbt_parsing.c:173-195 | tag 7: count and bytes, refused if and only if the sign bit of the count is set or bytes are missing |
| `NbtWire.StringsRead` | src/cNBT/nbt_parsing.c:126-149 | tag 8: accepted if and only if the length is at most 32767 and the bytes are there; what counts is before the first NUL |
| `NbtWire.EmptyListsRead` | src/cNBT/nbt_parsing.c:259-303 | tag 9 with count 0 or a negative count is an empty list, whatever its type; type 0 is kept as 10 |
| `NbtWire.ByteListsRead` | src/cNBT/nbt_parsing.c:259-303 | tag 9 of bytes: the elements in order |
| `NbtWire.CompoundsRead` | src/cNBT/nbt_parsing.c:305-355 | tag 10: named tags up to a byte 0 |
| `NbtWire.IntArraysRead` | src/cNBT/nbt_parsing.c:197-223 | tag 11: count and 32-bit words, refused if and only if the sign bit is set or words are missing |
| `NbtWire.OtherTagsRefused` | src/cNBT/nbt_parsing.c:406-413 | every other tag is refused, also as the type of a list with elements |
| `NbtStable.ParseStable` | src/cNBT/nbt_parsing.c:423-442 | what the parser reads does not depend on what follows it |
| `NbtStable.TruncatedIsRefused` | src/cNBT/nbt_parsing.c:94-102 | a dump cut short anywhere is refused |
| `NbtStable.NodeDumpsIff` | src/cNBT/nbt_parsing.c:716-768 | a tree can be dumped if and only if its strings are at most 32767 bytes, its lists hold one known type and fewer than 2^31 elements, and an empty list has a type in its sentinel |
| `NbtStable.PayloadStable` | src/cNBT/nbt_parsing.c:357-421 | every payload is read alike whatever follows it |
| `Endian.SwapBytes` | src/cNBT/nbt_parsing.c:32-47 | the two-pointer swap loop reverses the array in place |
| `Endian.SwapReads` | src/cNBT/nbt_parsing.c:69-73 | swapped bytes read natively are the big-endian value |
| `Endian.SwapWrites` | src/cNBT/nbt_parsing.c:54-55 | a native number, swapped, is its big-endian encoding |
| `Endian.ReadSwapped` | src/cNBT/nbt_parsing.c:69-73 | reading through the swap gives the big-endian value |
| `Endian.SwapToWrite` | src/cNBT/nbt_parsing.c:595-608 | what is appended to the dump is the big-endian encoding |
| `Buffer.Buf.constructor` | src/cNBT/buffer.c:25-41 | a new buffer is empty |
| `Buffer.Buf.LazyInit` | src/cNBT/buffer.c:25-41 | allocates on first use; contents unchanged |
| `Buffer.Buf.Reserve` | src/cNBT/buffer.c:54-76 | the doubling loop ends with at least the capacity asked for; contents unchanged |
| `Buffer.Buf.Append` | src/cNBT/buffer.c:78-93 | contents gain exactly the new bytes at the end |
| `NbtParser.Cursor.Scan` | src/cNBT/nbt_parsing.c:97-102 | takes n bytes off the input, or fails and takes none |
| `NbtParser.Cursor.ScanSwapped` | src/cNBT/nbt_parsing.c:97-102 | the same, read big-endian |
| `NbtParser.Cursor.NextString` | src/cNBT/nbt_parsing.c:126-149 | reads what the string grammar says and leaves the cursor behind it; failure exactly where the grammar fails |
| `NbtParser.Cursor.NextByteArray` | src/cNBT/nbt_parsing.c:173-195 | the same for byte arrays |
| `NbtParser.Cursor.NextIntArray` | src/cNBT/nbt_parsing.c:197-223 | the same for int arrays, whose words are swapped in a loop |
| `NbtParser.SwapWords` | src/cNBT/nbt_parsing.c:213-217 | the loop turns every word of the array to native order |
| `NbtParser.Cursor.NextList` | src/cNBT/nbt_parsing.c:259-303 | the same for lists, with the type 0 rule for the sentinel |
| `NbtParser.Cursor.NextItems` | src/cNBT/nbt_parsing.c:283-296 | the element loop collects the elements in order, none for a count that is not positive |
| `NbtParser.Cursor.NextCompound` | src/cNBT/nbt_parsing.c:305-355 | the member loop collects named members up to the end tag |
| `NbtParser.Cursor.NextPayload` | src/cNBT/nbt_parsing.c:357-413 | dispatch on the type, with every failure of the readers |
| `NbtParser.Cursor.ParseUnnamedTag` | src/cNBT/nbt_parsing.c:357-421 | a node, or NULL exactly when the grammar fails or errno was already set |
| `NbtParser.Cursor.ParseNamedTag` | src/cNBT/nbt_parsing.c:151-171 | type, name and payload; a bad name fails the whole tag although the payload is still parsed |
| `NbtParser.NbtParse` | src/cNBT/nbt_parsing.c:423-433 | the whole parser equals the grammar on every input |
| `NbtDumper.NbtDumpBinary` | src/cNBT/nbt_parsing.c:770-781 | on success the buffer is exactly the dump; fails exactly on trees that have none |
| `NbtDumper.DumpNodeBinary` | src/cNBT/nbt_parsing.c:716-768 | appends the dump of a node to the buffer or fails exactly when there is none |
| `NbtDumper.DumpPayloadBinary` | src/cNBT/nbt_parsing.c:729-765 | the same by payload type |
| `NbtDumper.DumpListBinary` | src/cNBT/nbt_parsing.c:653-690 | the same for lists: element type, count, elements |
| `NbtDumper.DumpAllBinary` | src/cNBT/nbt_parsing.c:676-687 | the loop over entries appends their dumps in order |
| `NbtDumper.ListIsHomogenous` | src/cNBT/nbt_parsing.c:230-257 | the loop returns the common type, the sentinel type of an empty list, and 0 for a mixed list |
| `NbtDumper.DumpStringBinary` | src/cNBT/nbt_parsing.c:630-651 | appends length and bytes up to the first NUL; fails above 32767 bytes |
| `NbtDumper.DumpIntArray` | src/cNBT/nbt_parsing.c:610-628 | appends count and big-endian words |
| `NbtWalk.WalkUnnamedNbt` | src/datautils.c:436-487 | the dispatching walker measures what its grammar says |
| `NbtWalk.WalkNbtList` | src/datautils.c:399-414 | the list loop does, without subtracting its header from the limit |
| `NbtWalk.WalkNbtCompound` | src/datautils.c:416-434 | the compound loop does |
| `NbtWalk.ParserAndWalkerAgree` | src/datautils.c:489-503 | whenever the parser accepts, the walker limited to the buffer returns exactly the number of bytes the parser consumed |
| `NbtWalk.PayloadAgrees` | src/datautils.c:379-487 | the same for every payload and every limit that admits the bytes consumed |
| `NbtWalk.WalkerAcceptsMore` | src/datautils.c:389-397 | the converse fails, for instance on a long array |
| `NbtWalkExact.ParserAcceptsIff` | src/datautils.c:379-503 | for every byte string: the parser accepts if and only if the walker accepts and, along the walk, every string length and array count has a clear sign bit and there is no long array; then both consume the same bytes |
| `NbtWalkExact.PayloadParses` | src/datautils.c:379-487 | the same for every payload whose measured bytes are there |
| `NbtWalkBounds.OverreadIff` | src/datautils.c:399-414 | exactly when a walk limited to the buffer reads outside it: a header reached is not all inside, but within five bytes per enclosing list of the end |
| `NbtWalkBounds.PayloadTracked` | src/datautils.c:436-487 | at every point of the walk the limit is the bytes left plus five for each enclosing list |
| `NbtWalkBounds.LeakOnlyOverreads` | src/datautils.c:399-414 | the walker accepts n bytes if and only if a walk that takes the header off the limit does, and such a walk never looks outside; the leak only turns rejections into reads outside |
| `NbtWalkBounds.NoListNoOverread` | src/datautils.c:489-503 | bytes without the list tag are never read outside |
| `NbtWalkBounds.OverreadsByTwo` | src/datautils.c:399-414 | an eight-byte input on which the length of a string is read behind the buffer |
| `NbtWalkBounds.OverreadIsUnbounded` | src/datautils.c:399-414 | with a limit of eight bytes the walker runs through any number of list headers behind them |
| `NbtSize.SizeLaw` | src/datautils.c:313-377 | the dump of every well-formed tree is longer than the computed size by five bytes per list; equal if and only if there is no list |
| `NbtOps.CopyIsBareFilter` | src/cNBT/nbt_treeops.c:226-367 | on every tree without int arrays the copying filter and the in-place filter give the same tree up to list sentinels |
| `NbtOps.FilterKeeps` | src/cNBT/nbt_treeops.c:340-367 | what is kept, in the original preorder and under the same ancestors, is exactly the nodes that satisfy the predicate along with all their ancestors |
| `NbtOps.BareDump` | src/cNBT/nbt_parsing.c:230-257 | a tree without sentinel types dumps to the same bytes if and only if no list in it is empty |
| `NbtOps.FilteredCopyDumps` | src/cNBT/nbt_treeops.c:234-235 | a filtered copy dumps to what the tree filtered in place dumps to if every list kept with its ancestors has an element the predicate accepts, and cannot be dumped otherwise |
| `NbtOps.NoneEmptyIff` | src/cNBT/nbt_treeops.c:340-367 | no list is empty after filtering if and only if every list kept with its ancestors has an element the predicate accepts |
| `NbtOps.PathLookup` | src/cNBT/nbt_treeops.c:451-488 | path lookup returns the first node in preorder whose chain of names is the path split at its dots, and NULL if there is none |
| `NbtOps.NbtFindByPath` | src/cNBT/nbt_treeops.c:451-488 | the recursive search with its list loop does that |
| `NbtOps.IndexOfDot` | src/cNBT/nbt_treeops.c:415-424 | the loop finds the first dot or the end |
| `NbtHeap.SegCut` | include/cNBT/list.h:47-54 | unlinking an element and freeing it leaves a well-linked list that skips it |
| `NbtHeap.HoldsFrame` | include/cNBT/list.h:34-54 | a tree in memory depends on its own blocks only |
| `NbtFilter.Heap.Free` | src/cNBT/nbt_treeops.c:54-75 | releases exactly the blocks of the tree, each once, reading none after it was released |
| `NbtFilter.Heap.FreeList` | src/cNBT/nbt_treeops.c:35-52 | the same for the list of a node |
| `NbtFilter.Heap.ListDel` | include/cNBT/list.h:47-54 | the neighbours are linked to each other, nothing else changes |
| `NbtFilter.Heap.FilterInPlace` | src/cNBT/nbt_treeops.c:340-367 | the tree left in memory is the filtered tree, in the blocks it had; exactly the other blocks of the original are released; no block outside it is touched |
| `NbtFilter.Heap.FilterEntries` | src/cNBT/nbt_treeops.c:354-364 | the deletion-safe loop filters the children in order and keeps both links of the circular list |
| `NbtFilter.IterDrop` | src/cNBT/nbt_treeops.c:359-363 | dropping an entry in mid-iteration keeps the finished part, the part ahead and their separation |
| `NbtFilter.IterKeep` | src/cNBT/nbt_treeops.c:357-357 | keeping an entry does |
| `NbtCopy.ListAddTail` | include/cNBT/list.h:34-44 | the element is linked between the old last element and the sentinel |
| `NbtCopy.SegAddTail` | include/cNBT/list.h:34-44 | a circular list stays one, with the new element last |
| `NbtCopy.FilterCopy` | src/cNBT/nbt_treeops.c:263-338 | the copy is a new tree in new blocks with the contents the filter says; the original is untouched and no block is left over |
| `NbtCopy.FilterList` | src/cNBT/nbt_treeops.c:226-261 | the new list holds the survivors in order |
| `NbtCopy.BothFilters` | src/cNBT/nbt_treeops.c:226-367 | both filters on one tree in memory: the results are the same tree up to list sentinels, in disjoint blocks |
| `UtSortSpec.SortIsStable` | include/uthash.h:983-1065 | for every total preorder the bottom-up mergesort gives a sorted permutation in which equal items keep their order |
| `UtSortSpec.MergeStable` | include/uthash.h:1009-1053 | merging keeps the order of equal items, left run first |
| `UtSort.AppOrder.Sort` | include/uthash.h:983-1065 | the in-place sort terminates with next, prev, head and tail consistent and the list a stable sorted permutation of what it was |
| `UtSort.AppOrder.RunPass` | include/uthash.h:992-1057 | one pass over the linked list merges neighbouring runs, and needs at most one merge if and only if two runs cover the list |
| `UtSort.AppOrder.MergeRuns` | include/uthash.h:1008-1055 | relinks the merge of two runs behind the output, both links consistent |
| `UtSort.AppOrder.WalkRun` | include/uthash.h:996-1007 | steps over at most one run |
| `UtSort.AppOrder.Append` | include/uthash.h:289-295 | the order gains the item at its end, links, head and tail consistent |
| `UtSort.AppOrder.Remove` | include/uthash.h:461-482 | the order loses exactly that item, links, head and tail consistent |
| `UtList.AppendLinked` | include/uthash.h:289-295 | linking behind the last item extends the doubly linked list |
| `UtList.PushLinked` | include/uthash.h:862-869 | linking before the first item extends it |
| `UtList.RemoveLinked` | include/uthash.h:882-895 | relinking the neighbours removes the item |
| `UtBuckets.PushBuckets` | include/uthash.h:860-869 | adding to one bucket keeps every chain linked and counted |
| `UtBuckets.DropBuckets` | include/uthash.h:882-895 | deleting from one bucket keeps every chain linked and counted |
| `UtBuckets.PushPlaced` | include/uthash.h:441-444 | every item stays in the bucket of its hash when one is added |
| `UtBuckets.DropPlaced` | include/uthash.h:882-895 | and when one is deleted |
| `UtBuckets.MovePending` | include/uthash.h:944-969 | while items move to the doubled buckets, the old chains still ahead stay walkable and disjoint from what has moved |
| `UtTable.Table.constructor` | include/uthash.h:164-184 | a NULL head is the empty map |
| `UtTable.Table.Find` | include/uthash.h:838-857 | returns exactly the stored item of the key, NULL when there is none |
| `UtTable.Table.Add` | include/uthash.h:407-426 | a new item under a new key: the map gains it, the order ends with it, the FSCK conditions hold |
| `UtTable.Table.AddToBkt` | include/uthash.h:860-879 | adds to the chain; the buckets double if and only if the chain reaches ten items times one more than its multiplier and doubling is not given up; counts stay right |
| `UtTable.Table.ExpandBuckets` | include/uthash.h:926-976 | doubling keeps the same items, each now in the bucket of its hash for twice the buckets, touches neither order nor keys, computes the ideal chain length as the rounded-up quotient and counts the items beyond it, and gives up doubling exactly after two ineffective times in a row |
| `UtTable.Table.MoveChain` | include/uthash.h:944-969 | one old chain is emptied into the new buckets |
| `UtTable.IdealIsCeiling` | include/uthash.h:908-924 | shift and mask compute the rounded-up quotient |
| `UtTable.Table.Delete` | include/uthash.h:461-488 | the item leaves the map and the order and nothing else does |
| `UtTable.Table.DelInBkt` | include/uthash.h:882-895 | its chain loses it; counts stay right |
| `UtTable.Table.Sort` | include/uthash.h:983-1065 | only the order changes: the bucket chains, outside the frame, and so every find, stay |
| `UtTable.Step` | include/uthash.h:407-488 | each operation on the table is that operation on a finite map with insertion order |
| `UtTable.Perform` | include/uthash.h:526-573 | over every run of adds with distinct keys, deletes, finds and sorts, through every doubling, the table is that map, every find answers for it, and the HASH_FSCK conditions hold |
| `Varint.SizeIsLength` | src/datautils.c:158-168 | the size function is the encoded length if and only if the value is not in 128..255, where it is one short |
| `Varint.WalkOfEnc` | src/datautils.c:170-181 | the walker returns the encoded length given the whole encoding and whatever follows, and asks for more on every strict prefix |
| `Varint.VerdictIsStable` | src/datautils.c:170-181 | more bytes never change a verdict that did not ask for more |
| `Varint.WalkIff` | src/datautils.c:170-181 | the exact bytes of each verdict: a number ends at the first byte below 128 among the first five, five that go on are invalid, fewer ask for more |
| `Varint.EncGroups` | src/datautils.c:183-189 | byte k is the k-th group of seven bits, with the top bit set on all but the last |
| `Varint.Samples` | src/datautils.c:183-189 | the sample encodings of the protocol |
| `Varint.ValueOfEnc` | src/datautils.c:183-199 | decoding stops at the end of the encoding and gives the value, whatever follows |
| `Varint.EncVarint` | src/datautils.c:183-189 | writes the encoding at the pointer and nothing else |
| `Varint.WalkVarint` | src/datautils.c:170-181 | the loop gives that verdict and reads no byte beyond the limit |
| `Varint.DecVarint` | src/datautils.c:191-199 | the or-and-shift loop gives the low 32 bits of the number as a signed integer, and the position behind it |
| `Varint.RoundTrip` | src/datautils.c:170-199 | encode, walk, decode: every 32-bit value comes back, the cursor at the suffix |
| `Varint.OrShift` | src/datautils.c:194-197 | or-ing in the next seven shifted bits adds them |
| `Framing.DrainSplit` | src/net/sb_net.c:96-179 | decoding a safe stream in two pieces is decoding it in one |
| `Framing.ChunkingIsIrrelevant` | src/net/sb_net.c:93-179 | however a safe stream is cut into reads, the same packets are delivered and the same state is reached |
| `Framing.ChunkingIff` | src/net/sb_net.c:93-179 | every way of cutting a stream into reads delivers the same if and only if it is safe: every frame size of -1 the decoder reaches is followed by no more than the beginning of a number |
| `Framing.CuttingIff` | src/net/sb_net.c:97-109 | the same for one cut at every place |
| `Framing.UnsafeCut` | src/net/sb_net.c:97-108 | every unsafe stream has a place where a cut changes what the receiver does |
| `Framing.MinusOneIsAmbiguous` | src/net/sb_net.c:97-108 | cutting right behind a frame size of -1 is harmless if and only if what follows is no more than the beginning of a number |
| `Framing.FramingIsIndependentOfChunking` | src/net/sb_net.c:93-127 | for every list of packets with ids outside 128..255 and sizes below 2^31, and every way of cutting their stream, exactly that list is delivered, in order, with nothing left over |
| `Framing.StreamRoundTrip` | src/net/sb_net.c:222-226 | the uncut stream decodes to the list sent |
| `Framing.StreamRoundTripIff` | src/net/sb_net.c:222-226 | a list of packets comes back if and only if no id in it is in 128..255 |
| `Framing.FrameRoundTripIff` | src/net/sb_net.c:222-226 | one packet comes back if and only if its id is outside 128..255 |
| `Framing.ShortFrame` | src/net/sb_net.c:222-226 | the bytes of a short frame: size, id, body |
| `NetSend.EncUncomHdr` | src/net/sb_net.c:222-226 | writes size field and id at the pointer and nothing else |
| `NetSend.HeaderRoom` | src/net/sb_net.c:216-220 | the room computed for a header is enough if and only if neither id nor size field is in 128..255 |
| `NetSend.HeaderStartsFrame` | src/net/sb_net.c:222-226 | header and body together are the frame the receiver decodes |
| `NetBuf.Netcore.constructor` | src/net/sb_net.c:330-335 | an empty buffer, no size known |
| `NetBuf.Netcore.MakeRoom` | src/net/sb_net.c:49-60 | compaction and growth keep the unread bytes and the sum of the regions, and leave the room asked for |
| `NetBuf.Netcore.Advance` | src/net/sb_net.c:41-47 | drops bytes from the front, or fails and drops none |
| `NetBuf.Netcore.Recv` | src/net/sb_net.c:32-39 | takes bytes from the front, or fails and takes none |
| `NetBuf.Netcore.Fill` | src/net/sb_net.c:93-94 | what the socket wrote is appended to the unread bytes |
| `NetBuf.Netcore.ReadSize` | src/net/sb_net.c:97-109 | takes the size field off the stream when it is complete; waits or exits exactly where the stream decoder does |
| `NetBuf.Netcore.ReadPacket` | src/net/sb_net.c:111-127 | delivers the packet when all of it is there; waits or exits exactly where the stream decoder does |
| `NetBuf.Netcore.DecodeLoop` | src/net/sb_net.c:96-179 | the loop leaves the state the stream decoder says |
| `NetBuf.Netcore.Receive` | src/net/sb_net.c:75-94 | one read appends its bytes and decodes what is complete, whatever the buffer had to do for it |
| `NetBuf.Connection` | src/net/sb_net.c:75-179 | any number of reads of any sizes deliver exactly the packets sent |
| `Position.PositionRoundTrip` | src/datautils.c:295-311 | a position comes back if and only if x and z fit 26 bits and y fits 12 |
| `Position.WordRoundTrip` | src/datautils.c:295-311 | every 64-bit word is the encoding of the in-range position it decodes to |
| `Position.WireRoundTrip` | src/datautils.c:295-311 | the same on the wire, whatever follows |
| `Position.PackIsSum` | src/datautils.c:295-299 | the three fields do not overlap |
| `SdsQuote.QuotingRoundTrip` | src/sds.c:951-1059 | splitting the quoted forms of any byte strings, separated by spaces, returns exactly those strings |
| `SdsQuote.SplitRepr` | src/sds.c:967-1044 | a quoted form followed by a blank or the end is read back as one argument |
| `SdsQuote.ScanEscape` | src/sds.c:968-992 | the scanner undoes each escape, for every byte |
| `SdsQuote.ReprHasNoNul` | src/sds.c:876-899 | the quoted form is a C string |
| `SdsQuote.CatRepr` | src/sds.c:876-899 | the printing loop appends the quoted form |
| `SdsQuote.TakeTurn` | src/sds.c:968-1038 | one turn of the scanner, in each of its three modes |
| `SdsQuote.GetToken` | src/sds.c:960-1044 | the inner loop reads the token the scanner function says, or its error |
| `SdsQuote.SplitArgs` | src/sds.c:951-1059 | the whole splitter does, and returns NULL exactly on unbalanced quotes |
| `SdsGrammar.SplitsIff` | src/sds.c:951-1059 | for every C string: the result is a list of arguments if and only if the line is arguments and blanks of the grammar, and then it is their values |
| `SdsGrammar.RejectsIff` | src/sds.c:992-1016 | NULL is returned if and only if, after some arguments, a quote is never closed or a closing quote is followed by neither a blank nor the end |
| `SdsGrammar.GrammarIsRead` | src/sds.c:951-1059 | every line of the grammar is split into the values of its arguments |
| `SdsGrammar.WordsComeBack` | src/sds.c:1019-1037 | words without blanks or quotes, separated by spaces, come back as they are |
| `SdsGrammar.SingleQuotesComeBackIff` | src/sds.c:1003-1017 | text in single quotes with its apostrophes escaped comes back if and only if it does not end in a backslash |
| `SdsGrammar.EscapesComeBack` | src/sds.c:968-991 | in double quotes a backslash before a character without a meaning gives that character, and two hex digits in either case give the byte |
| `SdsGrammar.EscapeTable` | src/sds.c:879-895 | what is printed for each byte, in ASCII codes |
| `SdsString.Sds.constructor` | src/sds.c:89-147 | the string is the initial bytes, without room to spare, in the smallest header that fits, the empty string in the 8-bit one |
| `SdsString.Sds.MakeRoomFor` | src/sds.c:204-253 | nothing changes if there is room; otherwise contents unchanged, and room for twice the new length, or 1 MB more from 1 MB on, in the smallest header but the 5-bit one |
| `SdsString.HeaderIsSmallest` | src/sds.c:60-75 | the header chosen is the one with the fewest bits that holds the size |
| `SdsString.Sds.RemoveFreeSpace` | src/sds.c:255-289 | no room to spare, contents unchanged, in the smallest header if the string is shorter than 256 bytes |
| `SdsString.Sds.CatLen` | src/sds.c:393-402 | appends exactly the bytes |
| `SdsString.Sds.CpyLen` | src/sds.c:422-431 | becomes exactly the bytes |
| `SdsString.Sds.GrowZero` | src/sds.c:375-387 | grows with zero bytes, never shrinks |
| `SdsString.Perform` | src/sds.c:204-431 | over every run of the operations, through every header change, the string is exactly the bytes the operations mean, len <= alloc, both fit the header, NUL at the end |
| `SdsSplit.SplitThenJoin` | src/sds.c:812-860 | joining what was split gives the string back, for every string and separator |
| `SdsSplit.JoinThenSplit` | src/sds.c:1098-1107 | splitting what was joined gives the tokens back if and only if no token shows the separator early and they are not the single empty token |
| `SdsSplit.SplitLen` | src/sds.c:812-860 | the scanning loop cuts at the leftmost separators; NULL for an empty separator |
| `SdsSplit.JoinSds` | src/sds.c:1098-1107 | the loop puts separators between tokens only |
| `Registry.RegisterLive` | src/event/sb_event.c:70-94 | the new callback gets a handle no live one has; the other callbacks stay; the free stack stays duplicate-free and apart from the live handles |
| `Registry.UnregisterLive` | src/event/sb_event.c:96-113 | unregistering a live handle empties its slot and no other, and frees the handle |
| `Registry.UnregisterIff` | src/event/sb_event.c:96-113 | for every handle inside the callback array, the slots stay consistent if and only if it was live |
| `Registry.SharedHandleIff` | src/event/sb_event.c:70-113 | after a handle is unregistered, the registrations that follow get distinct handles if and only if it was live |
| `Registry.HandlesAre` | src/event/sb_event.c:75-90 | on any stack, consistent or not, registrations get the stack from its top and then new handles |
| `Registry.CallbackIsOverwritten` | src/event/sb_event.c:70-113 | after unregistering a handle that was not live, two of the callbacks registered next get it, and the later has taken the slot of the earlier |
| `Registry.DoubleUnregister` | src/event/sb_event.c:96-113 | after unregistering twice the next two registrations return the same handle |
| `Registry.Eventcore.constructor` | src/event/sb_event.c:18-28 | exactly the three built-in events are registered, in order |
| `Registry.Eventcore.RegEvent` | src/event/sb_event.c:44-68 | a known name keeps its handle and changes nothing; a new one gets the next handle; name index and array agree |
| `Registry.Eventcore.Rebuild` | src/event/sb_event.c:53-61 | clearing and refilling the index after doubling gives the same index |
| `Registry.Eventcore.RegCb` | src/event/sb_event.c:70-94 | the callback is live under a handle that was free, the other callbacks keep theirs, and no other event changes |
| `Registry.Eventcore.UnregCb` | src/event/sb_event.c:96-113 | exactly that slot is emptied, and no other event changes |
| `Registry.Perform` | src/event/sb_event.c:44-113 | over every run in which only live handles are unregistered: starting from the three built-in events, event handles never change, names stay distinct, the slots that hold a callback are exactly the live handles, each its own |

## Left out

- Weak memory orderings, wrap-around of ring positions and reuse of counters: `Ring`, `Parking` and `Scheduler` are sequentially consistent, positions and counters are unbounded and fresh.
- `Scheduler` runs over atomic queues. At step level a push can fail while a slow popper still holds its cell (`Ring.FailingPushIsJustified`), so the two layers are not composed.
- `vgc_make` and `vgc_jump`: a jump is one atomic transfer of control.
- An invalid job priority, whose error path pushes the address of a local, and `vgc_enque_job` called directly with a counter it did not initialise.
- The value returned by a failed `vgc_schedule_jobs` (0 when the first job fails); the model only records that the counter will never fire.
- Allocation failure everywhere, including the non-fatal out-of-memory variants of uthash and the cleanup paths of cNBT and sds.
- libuv, sockets, logging, rwlocks and mutexes as OS objects; zlib and the compressed branch of the read callback; the generated packet decoders.
- Varlongs, strings, UUIDs, slots, ingredients, smelting, particles, metadata and item tags of `src/datautils.c`.
- `nbt_clone`, `nbt_eq`, `nbt_find`, `nbt_map`, `nbt_list_item`, the ASCII dump and file loading.
- NbtCopy.FilterCopy: the words of a copied int array are an arbitrary function of the original, because only a quarter of them is copied; nothing is claimed about them.
- NbtCopy.BothFilters: assumes no int arrays and NUL-free strings, as the source's strings are.
- NbtFilter.Heap.FilterInPlace: the predicate is a function of the tree it is given; a predicate with side effects or one that looks at other memory is not covered. NULL trees are not passed to it.
- NbtHeap: a sentinel's type node is part of its sentinel block, and name and payload buffers are part of their node's block.
- NbtWalk.ParserAndWalkerAgree: sizes are unbounded; the source's `int` sizes agree for buffers of at most 2^30 bytes.
- NbtParser, NbtDumper: child lists are sequences there; their circular linking is the subject of `NbtHeap`, `NbtFilter` and `NbtCopy` only.
- NbtWalk: memory is a value, not read through a pointer; a read outside it is a verdict of its own.
- Hash functions, the bloom filter, HASH_SELECT, HASH_REPLACE, in-order adds and the 32-bit wrap of `num_buckets`: the hash is any function of the key.
- UtTable.Table.Add: adding a key or an item that is already there, which uthash leaves to its callers, is not modelled.
- SdsString.Perform: no step may ask for more memory than a size_t can count; printf-style appends, trimming and ranges are left out.
- SdsQuote: `isprint` and `isspace` are ASCII.
- Event emission and the trampoline; concurrent registration of one name, whose lookup and insertion take separate locks: each registry call is atomic.
- NbtSize.SizeLaw: long arrays, which neither parser nor dumper supports, have no size in the model.
- Registry.Eventcore.UnregCb: asks for a live handle; what happens otherwise is `Registry.SharedHandleIff` and `Registry.CallbackIsOverwritten`. Handles beyond the callback array, which would be written outside it, are not modelled.
