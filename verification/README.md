# Verified models of the Cangjie runtime's core

This project models, in Dafny, the parts of the Cangjie runtime whose correctness rests on state that many
calls or many threads share, and proves what those parts promise for every input, every run and every
schedule.

- **GC thread pool** (`GcThreadPool*.dfy`): workers and one driver share a mutex, condition variables, a work
  queue and two counters. One step is one critical section; wake-ups may be spurious and `Exit` may come at
  any moment. Proved: what a returned `WaitFinish` means, what the counters count, and exactly which changes
  of a running pool's thread limit can block the driver and all workers for ever; with all others, and so
  when the limit changes only while stopped, no wake-up is lost and every call of the driver returns within a
  bounded number of steps.
- **Native allocator** (`SizeManager`, `Lists`, `PageCache`, `Carving`, `BlockLedger`, `NativeAllocator`):
  thread caches, central cache and page cache as classes, each lock-protected operation atomic. A ghost
  ledger says where each block is. Proved: the page cache's partition of its pages, the use counts, over
  whole runs that no two outstanding blocks overlap, and for which request sizes the size classes do what
  they are for: above 64 KB an alignment of 8 * 1028 instead of 8192 makes one bucket hold blocks of several
  sizes.
- **Type layout and reference bitmaps** (`TypeLayout`, `RefBitmap`, `LayoutAgreement`, `GcTib`): three computations
  that must agree. Proved: sizes and offsets obey one layout rule, and the collector's walk over the packed
  bitmap visits exactly the references of that layout if and only if two conditions hold: no array without
  elements has put a reference out of the bitmap's step, and no reference is in the words that the packed
  form drops.
- **Interning of generic types** (`Interning*.dfy`): threads step through the reader-writer lock's
  compare-and-swaps, the searches and the creation protocol; `AddTypeInfo`'s test, store and status store are
  three steps. Proved: exclusion, one descriptor and one creation per key, one instance per key as long as
  `AddTypeInfo` does not cut in on a creation, that this guard is exact, that storing while the inserter is
  about to store splits the key from every such state, and exactly when a thread is given an instance that is
  still being filled in.
- **Demangler** (`Mangled*.dfy`, `Demangler`, `DemangledTypes`): the recursive-descent parser as a class with
  a cursor. Proved: it terminates on every text and never passes the end, and any encoded type, whatever
  follows it, is consumed exactly and shown as the type it encodes if and only if it is accepted: nowhere in
  it is a pointer to a type parameter, or a declaration of which there is nothing to show.
- **Mark stack** (`MarkStack`): linked buffers of 64 slots that behave as one sequence, which cannot be cleared
  unless it is empty.
- **Exception decoders** (`Streams`, `Leb128`, `EhTable`, `VarIntStream`): LEB128 (section 7.6 of DWARF 5), the
  call-site and action tables, and the nibble-packed integers of the stack maps.
- **CPU-profile call tree** (`CallTree`, `CallTreeRuns`) and **page slot allocator** (`SlotPages`, `SlotAllocator`).

`dafny verify dfyconfig.toml` checks the whole project.

Where the code and its own words differ, the model follows the code:

- The thread-pool header compares `waitingThreadNum` with the number of active threads; the code compares it with
  the limit.
- `ReadSLEB128` does not move its cursor, although it takes it by address; the action table's offsets are
  relative to where the offset stands, so the reader relies on it.
- `AddTypeInfo` sets the status INITED from within a creation, before the method
  table and the reflection data are filled in, so INITED does not mean complete.
- The size classes' comment gives 8 KB steps above 64 KB; the code's `ALIGN_8192` is 8 * 1028.
- An empty profile sample is recorded as idle, while the root node counts the hit.
- A pointer to a type parameter has an encoding, but the test whether a type follows does not know type
  parameters, so the parser rejects it.
- The element type of a VArray is read as a list of types, so whatever follows it is taken for element types.
- `MarkStack::clear` keeps the tail pointer until its loop ends, which waits for that pointer to be null.
- A package separator at the very end of a package name is not replaced when the name is shown.

## Model

| member | source | states |
|---|---|---|
| `GcThreadPoolTheorems.WaitFinishCompletes` | runtime/src/Heap/GcThreadPool.cpp:239-281 | in every run, a returned WaitFinish leaves an empty queue and no executor with work; everything ever added was executed exactly once or thrown away by ClearAllWork |
| `GcThreadPoolTheorems.WaitFinishFinishesAll` | runtime/src/Heap/GcThreadPool.cpp:239-291 | without ClearAllWork, everything added before a returned WaitFinish, also by running work, has finished |
| `GcThreadPoolTheorems.CountersAndOwners` | runtime/src/Heap/GcThreadPool.cpp:74-118 | in every reachable state the active and waiting counters are exact, the queue is in order, and each piece of work is queued, held by exactly one executor, finished or discarded, and executed at most once |
| `GcThreadPoolLiveness.NoLostWakeUp` | runtime/src/Heap/GcThreadPool.cpp:76-105 | if every change of a running pool's limit fits, no reachable state has the driver waiting with all workers blocked and no notification pending, and queued work is never left to blocked workers |
| `GcThreadPoolProgress.CallReturns` | runtime/src/Heap/GcThreadPool.cpp:76-281 | from every state reached by fitting changes, also after Exit: every run of the workers and the driver alone, in whatever order they step, is bounded by a measure of the state, and until the driver's call has returned somebody can step |
| `GcThreadPoolProgress.WaitFinishReturns` | runtime/src/Heap/GcThreadPool.cpp:239-281 | in every such state a called WaitFinish can return within 42 steps for each thread, 8 for each queued task and 13 more |
| `GcThreadPoolProgress.StepUses` | runtime/src/Heap/GcThreadPool.cpp:76-281 | every step of a worker or the driver, in any state, makes the measure smaller |
| `GcThreadPoolLimits.FitIsExact` | runtime/src/Heap/GcThreadPool.cpp:182-198 | in every state reached by fitting changes, a change of the running pool's limit fits if and only if no later run of fitting changes can block the driver and all workers; fitting compares the new limit with the threads that await work and those that are not asleep |
| `GcThreadPoolLimits.UnfitChangeBlocks` | runtime/src/Heap/GcThreadPool.cpp:182-291 | after any change that does not fit, a run of WaitFinish and the workers alone ends with everybody blocked |
| `GcThreadPoolLiveness.StoppedChangesFit` | runtime/src/Heap/GcThreadPool.cpp:182-198 | if the limit changes only while stopped, every change fits, and in every reachable state, also after Exit, as many waiting threads as the limit mean that nobody executes |
| `GcThreadPoolTheorems.LoweringWhileRunningBlocks` | runtime/src/Heap/GcThreadPool.cpp:182-198 | a run of a two-thread pool in which the limit is lowered while running ends with the driver and every worker blocked and no notification pending |
| `GcThreadPoolTheorems.RaisingWhileRunningBlocks` | runtime/src/Heap/GcThreadPool.cpp:182-198 | a run in which it is raised while running ends so, too |
| `GcThreadPoolTheorems.ExitReleasesWorkers` | runtime/src/Heap/GcThreadPool.cpp:145-161 | once Exit is called, in every continuation each worker has left or can step, and it leaves after at most three of its own steps, whatever the others do |
| `GcThreadPoolLiveness.RunKeepsLive` | runtime/src/Heap/GcThreadPool.cpp:200-237 | every run of fitting changes keeps the liveness invariant: the limit lies between the awaiting threads and those awake, notifications are pending whenever their condition holds, and while a thread awaits work uncalled there is a called one for each queued task |
| `GcThreadPoolTheorems.RunKeepsExitWakesAll` | runtime/src/Heap/GcThreadPool.cpp:145-161 | in every run, after Exit no worker is blocked without a pending wake-up |
| `GcThreadPoolSafety.RunKeepsSafe` | runtime/src/Heap/GcThreadPool.cpp:124-143 | every run from the initial pool keeps the safety invariant |
| `GcThreadPoolSafety.StepKeepsCounts` | runtime/src/Heap/GcThreadPool.cpp:76-105 | each step keeps both counters exact |
| `GcThreadPoolSafety.StepKeepsOwned` | runtime/src/Heap/GcThreadPool.cpp:200-291 | each step keeps every piece of work with exactly one owner |
| `GcThreadPoolSafety.StepKeepsPhased` | runtime/src/Heap/GcThreadPool.cpp:212-281 | each step keeps the phases: while stopped and outside Stop no worker executes, and a returned WaitFinish leaves the queue empty |
| `SizeManager.RoundUpServes` | runtime/src/Common/MemCommon.h:125-140 | for every request up to 256 KB the block is at least as large and a multiple of 8; up to 64 KB it has the size of the request's bucket |
| `SizeManager.BucketMeansSize` | runtime/src/Common/MemCommon.h:142-161 | a request up to 64 KB and any other share a bucket exactly when they round up to the same size |
| `SizeManager.BucketServesIff` | runtime/src/Common/MemCommon.h:113-161 | for every request: every block of its bucket is large enough for it if and only if it is of at most 64 KB, or its bucket is an odd one, or it is within 32 bytes of the bucket's start |
| `SizeManager.LargeBucketServesShort` | runtime/src/Common/MemCommon.h:29-161 | 65537 and 70000 bytes share a bucket, and a block for the first has 65568 bytes |
| `SizeManager.PageNumServed` | runtime/src/Common/MemCommon.h:165-196 | for every request: its span has at least one page, and no more than the page cache can serve if and only if the request is not of 255969 to 262112 bytes |
| `SizeManager.SmallClassesTile` | runtime/src/Common/MemCommon.h:165-196 | for multiples of 8 up to 512 the span's length is exactly 512 blocks |
| `PageCache.Cache.constructor` | runtime/src/Common/PageCache.cpp:16-60 | a new page cache is a partition of no pages |
| `PageCache.Cache.NewSpan` | runtime/src/Common/PageCache.cpp:16-60 | the span returned has the pages asked for and was free; spans still partition the pages obtained, buckets and page map still agree; other used spans are unchanged |
| `PageCache.Cache.SplitSpan` | runtime/src/Common/PageCache.cpp:30-48 | a larger free span is cut into the one asked for and a rest that is hung back |
| `PageCache.Cache.AddRun` | runtime/src/Common/PageCache.cpp:50-57 | a fresh 128-page run becomes one free span |
| `PageCache.Cache.MapObjectToSpan` | runtime/src/Common/PageCache.cpp:62-74 | for any address in a used span, finds exactly that span |
| `PageCache.Cache.ReleaseSpanToPageCache` | runtime/src/Common/PageCache.cpp:76-133 | after merging with free neighbours the partition, buckets and map still agree, the released pages are free, and used spans are unchanged |
| `PageCache.Cache.MergeForward` | runtime/src/Common/PageCache.cpp:80-101 | only adjacent free spans are joined, never beyond 128 pages, and the loop ends |
| `PageCache.Cache.MergeBackward` | runtime/src/Common/PageCache.cpp:104-124 | the same towards higher addresses |
| `PageCache.Cache.Hang` | runtime/src/Common/PageCache.cpp:126-132 | the merged span is free, in the bucket of its length, and mapped at both ends |
| `Carving.CarveSpan` | runtime/src/Common/CentralCache.cpp:36-48 | the carving loop cuts one block for each start below the span's end |
| `Carving.CarvingFitsIffTiles` | runtime/src/Common/CentralCache.cpp:36-48 | every block stays inside the span if and only if the class divides the span's length |
| `Carving.Class528Overruns` | runtime/src/Common/CentralCache.cpp:36-48 | the 528-byte class cuts a block across the end of its span |
| `Carving.SmallClassesGive512` | runtime/src/Common/CentralCache.cpp:36-52 | classes of up to 512 bytes give exactly 512 disjoint blocks that cover the span |
| `Carving.CarvedFits` | runtime/src/Common/CentralCache.cpp:36-48 | for a dividing class the blocks lie in the span in address order without overlap |
| `BlockLedger.UseCountCounts` | runtime/src/Common/CentralCache.cpp:69-107 | a span's useCount equals its blocks that are not on its chain, so at 0 the chain holds every block |
| `BlockLedger.BlocksNeverOverlap` | runtime/src/Common/CentralCache.cpp:54-113 | two different carved blocks, of whatever classes, share no byte |
| `BlockLedger.BlockInItsSpan` | runtime/src/Common/CentralCache.cpp:92-107 | a block lies in the pages of the span it was carved from |
| `BlockLedger.TakeFromChainKeeps` | runtime/src/Common/CentralCache.cpp:69-77 | moving a block from a span's chain keeps the books balanced |
| `BlockLedger.ReturnToChainKeeps` | runtime/src/Common/CentralCache.cpp:92-98 | moving it back does |
| `BlockLedger.TakeFromCacheKeeps` | runtime/src/Common/MemCommon.h:56-112 | taking a block from a thread's list does |
| `BlockLedger.PutInCacheKeeps` | runtime/src/Common/MemCommon.h:56-112 | putting one in does |
| `BlockLedger.AdoptKeeps` | runtime/src/Common/CentralCache.cpp:36-52 | adding a newly carved span does |
| `BlockLedger.RetireKeeps` | runtime/src/Common/CentralCache.cpp:99-107 | giving up a span whose blocks are all back does |
| `NativeAllocator.Allocator.constructor` | runtime/src/Common/ThreadCache.cpp:13-27 | an allocator with no blocks is balanced |
| `NativeAllocator.Allocator.GetOneSpan` | runtime/src/Common/CentralCache.cpp:16-52 | the span returned has a free block; nothing handed out moves |
| `NativeAllocator.Allocator.FetchRangeObj` | runtime/src/Common/CentralCache.cpp:54-82 | between one and the batch's number of blocks are moved from one span's chain to the caller, each counted in useCount |
| `NativeAllocator.Allocator.ReleaseListToSpans` | runtime/src/Common/CentralCache.cpp:85-113 | every block of the list goes back to its own span's chain, and spans with no block out go back whole |
| `NativeAllocator.Allocator.RetireSpan` | runtime/src/Common/CentralCache.cpp:99-107 | a span with useCount 0 goes back to the page cache with all its blocks |
| `NativeAllocator.Allocator.Allocate` | runtime/src/Common/ThreadCache.cpp:13-27 | the block returned belonged to nobody and now to the client; all other clients keep theirs |
| `NativeAllocator.Allocator.FetchFromCentralCache` | runtime/src/Common/ThreadCache.cpp:46-75 | one fetched block goes to the client, the others to the thread's list; the batch size adapts |
| `NativeAllocator.Allocator.Deallocate` | runtime/src/Common/ThreadCache.cpp:30-43 | the block leaves the client and is in the thread's list or back with its span |
| `NativeAllocator.Allocator.ReturnToCentralCache` | runtime/src/Common/ThreadCache.cpp:78-87 | the thread's whole list for the class goes back to the spans; nothing a client holds moves |
| `NativeAllocator.Serve` | runtime/src/Common/ThreadCache.cpp:13-87 | over every run of any number of threads with matching-size frees, no two blocks held by clients share a byte and the books stay balanced |
| `TypeLayout.FillOffsets` | runtime/src/TypeInfoManager.cpp:610-667 | the stored offsets, size, alignment and reference flag obey the layout rule |
| `TypeLayout.FieldsInOrder` | runtime/src/TypeInfoManager.cpp:610-667 | fields are aligned, in order, without overlap and inside the instance |
| `TypeLayout.GetTypeSize` | runtime/src/TypeInfoManager.cpp:669-754 | the size recomputed through any nesting equals the stored one |
| `TypeLayout.WellFormedAlign` | runtime/src/TypeInfoManager.cpp:610-667 | alignments stay powers of two up to 8 and sizes multiples of them |
| `RefBitmap.RefsAreWords` | runtime/src/TypeInfoManager.cpp:16-71 | in any nested layout that is merely aligned and in bounds, references are whole aligned words inside the instance, and only flagged, word-aligned types have them |
| `RefBitmap.FlagMeansRef` | runtime/src/TypeInfoManager.cpp:610-667 | a type that stores a reference is flagged, and a flagged type that stores none has an empty array in it |
| `RefBitmap.FillTypeGCInfo` | runtime/src/TypeInfoManager.cpp:16-30 | marks exactly the references of one field or element, as the walk sees it, at its aligned place and moves just past it |
| `RefBitmap.FillArrayTypeGCInfo` | runtime/src/TypeInfoManager.cpp:32-45 | marks exactly the references of all elements and moves past them; an array without elements, at any depth, moves nothing |
| `RefBitmap.GetGCTibStr` | runtime/src/TypeInfoManager.cpp:47-71 | for every type the string has '1' at word w if and only if the type has a reference at byte 8w by the offsets that the walk computes |
| `LayoutAgreement.BitmapRightIffAgrees` | runtime/src/TypeInfoManager.cpp:16-71 | for every type, the references the walk marks are those of the stored layout if and only if each field that stores references, at every depth, has the walk's offset |
| `LayoutAgreement.NeverAhead` | runtime/src/TypeInfoManager.cpp:16-71 | for each reference the walk marks there is a reference at that byte or further on |
| `LayoutAgreement.FilledArraysAgree` | runtime/src/TypeInfoManager.cpp:32-45 | types without empty arrays agree |
| `LayoutAgreement.EmptyArrayMisplaces` | runtime/src/TypeInfoManager.cpp:32-45 | a byte, an empty array of 8-byte numbers, a byte and a reference: stored at byte 16, marked as byte 8 |
| `GcTib.PackTagged` | runtime/src/TypeInfoManager.cpp:571-587 | the tagged word has the tag bit and exactly the string's bits |
| `GcTib.PackWords` | runtime/src/TypeInfoManager.cpp:588-608 | one byte for every whole group of eight characters, with exactly their bits |
| `GcTib.CalculateGCTib` | runtime/src/TypeInfoManager.cpp:571-608 | a slot is set exactly for a reference, by the walk's offsets, that the packed form has room for; by the stored offsets when the type agrees |
| `GcTib.VisitTagged` | runtime/src/ObjectModel/MClass.h:73-86 | the walk visits exactly the set slots, once each, in ascending order |
| `GcTib.VisitWords` | runtime/src/ObjectModel/MClass.h:135-153 | the same for the long form |
| `GcTib.ForEachBitmapWord` | runtime/src/ObjectModel/MClass.h:185-202 | the same for either form |
| `GcTib.ForEachRefField` | runtime/src/Common/BaseObject.cpp:55-61 | layout, bitmap and walk together, for every type: exactly the references are visited, each once and in order, if and only if the type agrees and no reference is in the dropped tail |
| `GcTib.ShortTypesAreTailFree` | runtime/src/TypeInfoManager.cpp:578-587 | types of up to 63 words have no dropped tail |
| `GcTib.LongRecordsLoseTheirTail` | runtime/src/TypeInfoManager.cpp:588-608 | a record of 64 or more references, not a multiple of eight, has its last one in the dropped tail |
| `InterningSafety.SearchKeepsLocked` | runtime/src/Base/RwLock.h:18-66 | each lock and search step keeps the lock word equal to who is inside |
| `InterningSafety.InsertKeepsTable` | runtime/src/TypeInfoManager.cpp:297-317 | inserting a key that the writer's search did not find keeps every key unique and findable |
| `InterningSafety.StepKeepsSound` | runtime/src/TypeInfoManager.cpp:280-345 | each step of any thread keeps locks, table and frames right |
| `InterningTheorems.LocksExclude` | runtime/src/Base/RwLock.h:16-67 | in every reachable state a writer of a bucket is alone in it, and both unlocks find the count they expect |
| `InterningTheorems.OneDescriptorOneCreation` | runtime/src/TypeInfoManager.cpp:280-345 | in every reachable state a key has at most one descriptor, at most one creation, and only by the inserting thread |
| `InterningTheorems.OneInstancePerKey` | runtime/src/TypeInfoManager.cpp:198-414 | in every run in which AddTypeInfo, whoever calls it, cuts in on no creation with its store or its status store, all callers for a key get the same instance, and callers on other threads only once its status is INITED |
| `InterningTheorems.GuardIsExact` | runtime/src/TypeInfoManager.cpp:198-364 | in every such state, for an instance other than the next one to be created: AddTypeInfo's store or status store, and the next step of each thread that it meets about to store an instance or to mark it, only advance descriptors if and only if it does not cut in |
| `InterningSplit.CutInSplitsKey` | runtime/src/TypeInfoManager.cpp:198-345 | from every sound state in which AddTypeInfo is about to store an instance while the inserter is about to store its own, some run gives one caller the one and another the other for the same key |
| `InterningCallers.OwnRunsAreGuarded` | runtime/src/TypeInfoManager.cpp:366-404 | runs in which AddTypeInfo is called only from within the creation of its instance are guarded |
| `InterningEarly.InitedIffRegistered` | runtime/src/TypeInfoManager.cpp:366-412 | in every guarded run: while an instance is being filled in, its status is INITED if and only if AddTypeInfo registered one for its key since the creator marked it |
| `InterningEarly.GivenEarlyOnlyIfRegistered` | runtime/src/TypeInfoManager.cpp:330-412 | in every guarded run a thread is given an instance that another is still filling in only after such a registration |
| `InterningGiven.GivenEarlyIfRegistered` | runtime/src/TypeInfoManager.cpp:280-412 | after one, every other thread that may call can be given it while the creator goes on filling it in |
| `InterningGiven.CanBeGiven` | runtime/src/TypeInfoManager.cpp:280-345 | from every sound state: whoever may call can be given an INITED instance, all creations in progress standing still |
| `InterningTheorems.StepKeepsCreated` | runtime/src/TypeInfoManager.h:63-100 | each step keeps creation unique |
| `InterningTheorems.FoundAdvances` | runtime/src/TypeInfoManager.cpp:198-414 | a step of any thread that does not cut in keeps every stored instance, and a status only advances |
| `InterningRace.OutsideRegistrationSplitsKey` | runtime/src/TypeInfoManager.cpp:198-233 | an instance registered from outside between the inserter's check and its store makes one key return two instances |
| `InterningRace.GivenWhileFilling` | runtime/src/TypeInfoManager.cpp:366-412 | a run in which nothing registers but the creation itself gives another thread the instance as INITED while the creator is still filling it in |
| `MarkStack.Buf.PushBack` | runtime/src/Common/MarkWorkStack.h:26-31 | appends one entry |
| `MarkStack.Buf.PopBack` | runtime/src/Common/MarkWorkStack.h:39-43 | drops the last entry |
| `MarkStack.Stack.PushBack` | runtime/src/Common/MarkWorkStack.h:102-108 | contents gain one entry at the end; links, count and filling of buffers stay right |
| `MarkStack.Stack.Back` | runtime/src/Common/MarkWorkStack.h:110-116 | the last entry, or null when empty |
| `MarkStack.Stack.PopBack` | runtime/src/Common/MarkWorkStack.h:118-127 | contents lose exactly the last entry |
| `MarkStack.Stack.Push` | runtime/src/Common/MarkWorkStack.h:176-188 | a buffer is linked behind the last |
| `MarkStack.Stack.Pop` | runtime/src/Common/MarkWorkStack.h:190-205 | the last buffer is unlinked |
| `MarkStack.Stack.Insert` | runtime/src/Common/MarkWorkStack.h:129-146 | contents are the concatenation; the other stack is left empty |
| `MarkStack.Stack.Split` | runtime/src/Common/MarkWorkStack.h:148-174 | for every number: the chain split off is the prefix of that many buffers, the stack keeps the suffix, nothing is lost or doubled |
| `MarkStack.Stack.Clear` | runtime/src/Common/MarkWorkStack.h:87-100 | finishes if and only if the stack is empty; otherwise it deletes every buffer once and then reads through a null head |
| `MarkStack.Stack.FromChain` | runtime/src/Common/MarkWorkStack.h:62-72 | a stack built from a chain has the chain's entries and count |
| `MarkStack.SplitAndRejoin` | runtime/src/Common/MarkWorkStack.h:62-174 | splitting anywhere, rebuilding and inserting the rest gives back every entry in its place |
| `MarkStack.EntriesJoin` | runtime/src/Common/MarkWorkStack.h:129-146 | entries of joined chains are the joined entries |
| `Leb128.ReadULEB128` | runtime/src/Exception/EhTable.cpp:44-57 | on encodings of up to five bytes the value read is the one encoded if and only if it is below 2^31; the cursor ends just past it |
| `Leb128.ReadBackU` | runtime/src/Exception/EhTable.cpp:44-57 | every value below 2^31 is read back from its encoding |
| `Leb128.ReadSLEB128` | runtime/src/Exception/EhTable.cpp:60-82 | on encodings of up to ten bytes the result is the two's complement reading of the signed value |
| `Leb128.ReadBackS` | runtime/src/Exception/EhTable.cpp:60-82 | every 64-bit value is read back from its encoding |
| `EhTable.MatchActionTable` | runtime/src/Exception/EhTable.cpp:157-208 | the first type of the action list that catches the exception, or 0 |
| `EhTable.ReadSite` | runtime/src/Exception/EhTable.cpp:123-130 | reads back one encoded call site |
| `EhTable.ScanEHTable` | runtime/src/Exception/EhTable.cpp:113-152 | scanning the encoded table equals first-match search on the list of call sites |
| `VarIntStream.ReadVarInt` | runtime/src/Exception/EhFrameInfo.h:146-181 | reads the tag and its 0, 2, 4, 6 or 8 nibbles at the nibble cursor, returns their little-endian value, and ends just past them |
| `VarIntStream.ReadItems` | runtime/src/Exception/EhFrameInfo.h:146-181 | any sequence of encoded values is read back in order from either half of the first byte |
| `Demangler.Parser.Reject` | runtime/src/Demangler/Demangler.cpp:1354-1365 | failure leaves the parser invalid with the cursor at the end |
| `Demangler.Parser.SkipChar` | runtime/src/Demangler/Demangler.cpp:390-404 | moves past the expected character or fails |
| `Demangler.Parser.SkipString` | runtime/src/Demangler/Demangler.cpp:419-430 | moves past the expected text or fails |
| `Demangler.Parser.DemangleLength` | runtime/src/Demangler/Demangler.cpp:255-276 | reads the whole run of digits as a number |
| `Demangler.Parser.DemangleStringName` | runtime/src/Demangler/Demangler.cpp:715-731 | an encoded name is read back exactly; anything else advances or fails |
| `Demangler.Parser.DemangleManglingNumber` | runtime/src/Demangler/Demangler.cpp:773-820 | an encoded base-62 number is read back exactly |
| `Demangler.Parser.DemanglePackageName` | runtime/src/Demangler/Demangler.cpp:678-707 | an encoded package is read exactly and shown |
| `Demangler.Parser.DemangleNextUnit` | runtime/src/Demangler/Demangler.cpp:1367-1375 | on every text a call advances the cursor or fails with it at the end; an encoded type is consumed exactly and shown if it is accepted, and rejected otherwise |
| `Demangler.Parser.DemangleByPrefix` | runtime/src/Demangler/Demangler.cpp:1377-1431 | the same for the choice by first character |
| `Demangler.Parser.DemangleClass` | runtime/src/Demangler/Demangler.cpp:1048-1059 | a class, struct or enum with optional type arguments is consumed exactly and shown with its package if it is accepted, and rejected otherwise |
| `Demangler.Parser.DemangleCommonDecl` | runtime/src/Demangler/Demangler.cpp:1128-1163 | its package and name are read exactly, and it is valid if and only if its type arguments are accepted and there is something to show of it |
| `DemangledTypes.NamelessIsRejected` | runtime/src/Demangler/Demangler.cpp:1128-1163 | a class named "<>" without type arguments, "CN02<>E", is rejected whatever follows it |
| `DemangledTypes.PointerToParamIsRejected` | runtime/src/Demangler/Demangler.cpp:1118-1126 | a pointer to any type parameter, "PG_" for the first, is rejected whatever follows it |
| `Demangler.Parser.DemangleNestedDecls` | runtime/src/Demangler/Demangler.cpp:948-1046 | terminates with the cursor in the text; up to sixteen names, the last with optional type arguments, are read up to the end mark and joined if those are accepted; of seventeen the last is dropped |
| `Demangler.HoldScope` | runtime/src/Demangler/Demangler.cpp:1025-1040 | the slots and the flushed text together hold the names so far |
| `Demangler.Parser.DemangleFunction` | runtime/src/Demangler/Demangler.cpp:1061-1079 | a function type of either convention is consumed exactly and shown if it is accepted, and rejected otherwise |
| `Demangler.Parser.DemangleTuple` | runtime/src/Demangler/Demangler.cpp:1081-1093 | the same for a tuple |
| `Demangler.Parser.DemangleRawArray` | runtime/src/Demangler/Demangler.cpp:1095-1106 | the same for an array of any dimension |
| `Demangler.Parser.DemangleVArray` | runtime/src/Demangler/Demangler.cpp:1108-1116 | the length is read, then every type up to the end mark, and all of them are shown as element types, if they are accepted; otherwise it is rejected |
| `DemangledTypes.DemangleVArrayOf` | runtime/src/Demangler/Demangler.cpp:1108-1116 | a VArray followed by any accepted types up to an end mark is shown as itself, and what follows is left, if and only if no type follows |
| `DemangledTypes.VArraySwallowsNext` | runtime/src/Demangler/Demangler.cpp:1108-1116 | in "F0uV2_liE" the arguments VArray of three Int64 and Int32 are shown as one VArray |
| `Demangler.Parser.DemangleCPointer` | runtime/src/Demangler/Demangler.cpp:1118-1126 | a pointer is consumed exactly and shown if its target is accepted and not a type parameter, and rejected otherwise |
| `Demangler.Parser.DemangleType` | runtime/src/Demangler/Demangler.cpp:1247-1260 | a type that is recognisable by its first characters is consumed exactly and shown if it is accepted, and rejected otherwise |
| `Demangler.Parser.DemanglePrimitive` | runtime/src/Demangler/Demangler.cpp:1202-1216 | a primitive is consumed exactly and shown |
| `Demangler.Parser.DemangleGenericType` | runtime/src/Demangler/Demangler.cpp:1225-1245 | a type parameter is consumed exactly and shown |
| `Demangler.Parser.DemangleGenericTypes` | runtime/src/Demangler/Demangler.cpp:1262-1283 | a list of types up to its end mark is consumed exactly and joined by commas if all are accepted, and rejected otherwise |
| `Demangler.Parser.DemangleArgTypes` | runtime/src/Demangler/Demangler.cpp:901-946 | for any number of accepted arguments the sixteen-slot buffer gives the plain join; if one is not accepted the list is rejected |
| `Demangler.Parser.DemangleFunctionParameterTypes` | runtime/src/Demangler/Demangler.cpp:1285-1309 | a list of types up to its end mark is consumed exactly and joined if all are accepted, and rejected otherwise; "v" is the empty list |
| `Demangler.Slots.Add` | runtime/src/Demangler/Demangler.cpp:926-935 | the buffer and the flushed text together hold all texts so far |
| `Demangler.Slots.Text` | runtime/src/Demangler/Demangler.cpp:937-945 | what is flushed and what is left make the join of all |
| `DemangledTypes.DemangleEncoded` | runtime/src/Demangler/Demangler.cpp:1367-1431 | every type of the grammar, encoded and followed by any text, is accepted if and only if it has no pointer to a type parameter and no nameless declaration in it; it is then shown as itself and exactly the following text is left, and otherwise nothing is left |
| `MangledText.EncodingSpells` | runtime/src/Demangler/Demangler.cpp:1377-1431 | an encoding, anywhere in a text, spells its type as the parser looks for it |
| `MangledText.NoOperator` | runtime/src/Demangler/Demangler.cpp:230-241 | in a list of types nothing can be taken for an operator's name |
| `CallTree.ProfileInfo.constructor` | runtime/src/CpuProfiler/SamplesRecord.cpp:44-83 | the first three nodes form a tree with no hits |
| `CallTree.ProfileInfo.Descend` | runtime/src/CpuProfiler/SamplesRecord.cpp:96-108 | the node found or made for a frame spells its parent's stack and the frame; ids and sets stay consistent |
| `CallTree.ProfileInfo.AddNodes` | runtime/src/CpuProfiler/SamplesRecord.cpp:110-116 | a new node keeps the tree, the children lists and the total of hits |
| `CallTree.ProfileInfo.AddSample` | runtime/src/CpuProfiler/SamplesRecord.cpp:172-208 | if what the stack adds fits, the sample's node spells exactly its stack and the tree grows by exactly that; older nodes keep their places; totals stay reconciled; a full node array records nothing |
| `CallTree.ProfileInfo.Walk` | runtime/src/CpuProfiler/SamplesRecord.cpp:96-188 | for every stack: the walk adds a node for each frame from the first not found on, and the indices it writes are within the node array if and only if those fit |
| `CallTreeRuns.Profile` | runtime/src/CpuProfiler/SamplesRecord.cpp:172-243 | over any sequence of samples up to one that does not fit: each recorded sample is put down to (program) or (idle) or spells its own stack, equal ids mean equal stacks, hits are samples, managed time is the time that the samples of managed code account for, both times make up the run but for what the deltas miss, and no sample is left out while there is room |
| `CallTreeRuns.NearlyFull` | runtime/src/CpuProfiler/SamplesRecord.cpp:110-188 | samples of one frame lead to 19999 nodes, where the profiler lets in a stack that needs two more |
| `CallTree.ProfileInfo.AddEmptySample` | runtime/src/CpuProfiler/SamplesRecord.cpp:210-229 | recorded as idle; totals stay reconciled |
| `CallTree.ProfileInfo.Record` | runtime/src/CpuProfiler/SamplesRecord.cpp:118-162 | one hit, one sample, one delta and one reading are added; a long pause rewrites the sample before it |
| `CallTree.ProfileInfo.CountTime` | runtime/src/CpuProfiler/SamplesRecord.cpp:231-243 | the delta goes to managed time if the last sample was managed and the pause not too long, and to unknown time otherwise |
| `CallTree.ProfileInfo.SameIdSameStack` | runtime/src/CpuProfiler/SamplesRecord.h:33-55 | two node ids are equal if and only if their stacks are |
| `CallTree.ProfileInfo.TotalsReconcile` | runtime/src/CpuProfiler/SamplesRecord.cpp:210-243 | hits sum to the samples; managed plus unknown time is last minus start less what the deltas miss, which is nothing if every stamp is non-zero and less than 2^31 from the one before, and a multiple of 2^32 in any run without stamps of 0 |
| `CallTree.DeltaIsExact` | runtime/src/CpuProfiler/SamplesRecord.cpp:192-193 | a delta is the difference of its time stamps if and only if a 32-bit int holds that, and otherwise misses a multiple of 2^32 |
| `CallTree.DeltasAddUp` | runtime/src/CpuProfiler/SamplesRecord.cpp:123-243 | for every log of samples: the deltas sum to last minus start less what each of them wraps and one start time for each stamp of 0 |
| `CallTree.PathsDiffer` | runtime/src/CpuProfiler/SamplesRecord.h:33-55 | different nodes stand for different stacks |
| `CallTree.PathKept` | runtime/src/CpuProfiler/SamplesRecord.cpp:110-116 | a node goes on standing for the same stack as the tree grows |
| `SlotPages.Page.constructor` | runtime/src/Common/PageAllocator.h:181-210 | a new page chains exactly the slots that fit behind its own fields, all free |
| `SlotPages.Page.Take` | runtime/src/Common/PageAllocator.h:69-78 | the slot taken was on the chain and not out; every slot stays on the chain or out |
| `SlotPages.Page.Give` | runtime/src/Common/PageAllocator.h:81-87 | the slot is on the chain again |
| `SlotPages.LinkSlots` | runtime/src/Common/PageAllocator.h:190-205 | the linking loop chains, in address order, exactly as many slots as the division says |
| `SlotAllocator.AddToList` | runtime/src/Common/PageAllocator.h:213-220 | the page is first of the doubly linked list |
| `SlotAllocator.RemoveFromList` | runtime/src/Common/PageAllocator.h:222-239 | from any place, the neighbours are linked to each other and the page to nothing |
| `SlotAllocator.PageAllocator.Allocate` | runtime/src/Common/PageAllocator.h:120-145 | the slot returned was not outstanding and shares no byte with one that is; a page is on the list if and only if some but not all slots are free; totalPages counts the pages held |
| `SlotAllocator.PageAllocator.Deallocate` | runtime/src/Common/PageAllocator.h:149-167 | exactly this slot is no longer outstanding; a page with all slots back is given up |
| `SlotAllocator.PageAllocator.PageOfSlot` | runtime/src/Common/PageAllocator.h:151-152 | rounding an outstanding slot's address down finds its own page |
| `SlotAllocator.PageAllocator.OutstandingApart` | runtime/src/Common/PageAllocator.h:120-210 | no two outstanding slots, of the same page or of different ones, share a byte, and none shares one with a page's own fields |
| `SlotPages.SlotsShareNothing` | runtime/src/Common/PageAllocator.h:181-210 | any two different slots of one page are apart |

## Left out

- ReadULEB128: encodings of more than five bytes are excluded, since the source then shifts an int by 35 bits or more.
- ReadSLEB128: only the branch for systems other than Apple's.
- DemangleNestedDecls: the text with lambdas, extensions, operators, properties or function parameters among the names, and of more than seventeen names, is computed as the code does but not specified.
- DemangleEncoded: types whose declarations are nested in others, and VArrays, which DemangleVArrayOf treats, are not in the grammar; names are not empty and do not start with a digit, since nothing parts a length from its name.
- DemangleFunctionParameterTypes: lists that end at a name instead of an end mark are not specified.
- DemangleStringName: lengths are unbounded; the source reads them with atoi.
- DemangleManglingNumber: numbers are unbounded; the source's wrap at 64 bits.
- FillOffsets: sizes are unbounded where the source has 32 bits; the fixed size of synchronisation classes is not modelled.
- CalculateGCTib: the 16-bit count of bitmap bytes is not wrapped, so types of 4 MB and more are not covered.
- AddSample: code entries are told apart by what the node set's ordering compares, so urls and script ids are not modelled; times do not wrap at 64 bits.
- MatchActionTable: looking a type index up in the type table and asking for the subtype relation is the parameter `catches`.
- ReadVarInt: the second decoder of the same format, in StackMapTable.h, is not modelled.
- Serve: covers size classes that divide their span, as CarvingFitsIffTiles requires, up to 64 KB, since above BucketServesIff shows buckets whose blocks are too short. Whole Allocate and Deallocate calls are the steps; threads that interleave between the central cache's and the page cache's lock sections of one call are not modelled.
- NativeAllocator.Allocator.Allocate: as Serve.
- NativeAllocator.Allocator.GetOneSpan: as Serve.
- NativeAllocator.Allocator.FetchRangeObj: as Serve.
- NativeAllocator.Allocator.FetchFromCentralCache: as Serve.
- NativeAllocator.Allocator.Deallocate: sizes up to 64 KB, as Serve.
- MarkStack.Stack.Push: takes the new buffer with its first entry in it; the source links it empty and enters the value next.
- Real threads, memory ordering and the operating system's memory: lock sections are atomic steps, atomics are sequentially consistent, and mapped memory is a parameter that is fresh.
- Whether GetOrCreateTypeInfo's waiting loop ends, uuid assignment, and the 16-bit template uuid. AddTypeInfo's calls exclude each other by a mutex in the source; the model lets them interleave, so it has more runs, and its uuid is set in the step that stores the instance. A call of AddTypeInfo for an instance that has a uuid returns at once in the source, while the model also allows it to go on.
- MarkStack's move constructor and element types other than object addresses.
- Demangling of whole declarations, default-parameter functions, global initialisers and compressed names; the table of standard packages is a parameter, and the filter of generic parameters is the identity.
- BuildEHTable's header, the range-limited walk over a bitmap, and walks over object arrays.
- Reading code information for samples, writing profiles as text, and PageAllocator's Destroy.
- Collector, barriers, scheduler, loader, stack unwinding and heap snapshots.
