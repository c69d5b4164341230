# Mini-Go: heap, linker, calls and channels

This project models the parts of the Mini-Go system in which many operations have to agree on shared state, and
proves what they keep over every run.

* **Managed heap.** The generational collector of the guest: card tables, major and minor marking, the parallel
  marker, evacuation and promotion, sweep and page reclamation, the write barrier of owner and workers, allocation
  batches and their byte ledger, and the layouts the collector traces. A heap is an object with mutable fields; a
  session is any sequence of writes, allocations, batches and collections on it.
* **Linker.** The reachability worklist, pruning of unreachable functions, validation before and after it, dependency
  order and hash binding.
* **Remote calls.** The wire codec of values, fragments on a shared connection, two-phase results, leases of bindings
  and operations, and the lifetime of exported resources.
* **Channels and host calls.** Select with its waiting lists, and calls into the host with their replies and budgets.

Modules follow the source: `HeapWords` to `Session` with `HeldHandles`, `ParallelMark`, `ParallelFinish`, `Allocation`,
`Layouts` and `LayoutPlaces` for `runtime/managed_*.go`; the `Link` modules for `compiler/linker_*.go`, with the
linker's rules on the fields of nodes and instructions in `LinkRules` and `LinkByFields`; `Wire`, `Values`,
`ValueParts`, `ValueCodec`, `CanonicalForm`, `Ordering`, `Fragments`, `FragmentTurns`, `TwoPhase`, `Leases` and
`Resources` for `rpc`; `SelectLists`, `Select`, `SelectExchange` and `HostCall` for the rest of `runtime`.
`TwoPhaseRuns`, `LeaseRenewal`, `ResourceRuns`, `ResourceClosing` and `HostCallRuns` say what becomes of a result, a
lease, a resource or a reply by the steps of a run alone, and that calls, results and route sets can be brought to
their end. What the source updates in place is a class with `modifies` clauses; each method is proved against a
function of its old state, and lemmas about those functions carry the results. Code that several threads run under
locks is a state machine over its locked regions, and results about it hold for every sequence of steps. Numbers are
unbounded; 32-bit and 64-bit wrap-around is written out wherever the source relies on machine words.

`dafny verify dfyconfig.toml` checks the project.

## Model

| member | source | states |
|---|---|---|
| `CardScan.LowerBound` | runtime/managed_gc.go:359 | the index it returns splits a sorted offset list into the offsets below the target and those at or above it |
| `CardScan.ScanObject` | runtime/managed_gc.go:336-416 | the element range and the binary-searched offset lists visit exactly the words that meet the byte range, in order, and none at all where the 32-bit range wraps |
| `CardScan.WrappedRangeIsEmpty` | runtime/managed_gc.go:418-438 | when the 32-bit sum in the element range wraps, the range is empty: nothing of the object is scanned |
| `CardScan.RangeCovers` | runtime/managed_gc.go:418-438 | without wrap-around every word that meets the byte range lies in an element of the range |
| `CardScan.WholeObjectTouchesAll` | runtime/managed_gc.go:328-334 | a scan over the whole payload visits every word of the layout |
| `CardScan.WideElementIsMissed` | runtime/managed_gc.go:418-438 | a concrete 3 GiB object whose reference at 2 GiB is visited by no card |
| `Cards.EntryInRange` | runtime/managed_gc.go:478-500 | the entries a card looks at include every old entry that meets the card |
| `Cards.LogHasRoom` | runtime/managed_gc.go:752-776 | a card that is not flagged yet still fits the log admitted with the pages |
| `Cards.CardTraceExactIff` | runtime/managed_gc.go:440-476 | tracing a card visits exactly the words of an entry that meet the card, if and only if the 32-bit arithmetic does not wrap or the card holds no word of the entry |
| `Marking.MajorMarksReachable` | runtime/managed_gc.go:48-165 | when every marked entry has been traced from marked roots, the marks are exactly the entries reachable from the roots; `Collector.ManagedHeap.DrainQueue` is the loop that gets there |
| `Marking.MinorMarksReachable` | runtime/managed_gc.go:48-165 | with roots, young queue and old-to-young references traced, every young entry the program can reach is marked |
| `Marking.CardsTraceOld` | runtime/managed_gc.go:440-476 | tracing the logged cards follows every reference from an old entry into the young generation, because the remembered set covers them |
| `Collector.ManagedHeap.MarkReference` | runtime/managed_gc.go:270-290 | fails exactly on a malformed or stale reference; otherwise the entry carries the epoch, is queued once and its bytes are counted, and nothing else changes |
| `Collector.ManagedHeap.TraceObject` | runtime/managed_gc.go:328-330 | fails exactly when the entry holds a bad reference; otherwise all its children are marked |
| `Collector.ManagedHeap.DrainQueue` | runtime/managed_gc.go:189-205 | fails exactly when some queued entry holds a bad reference; otherwise every queued entry has been traced; the queue only grows and stays among the entries that can be reached |
| `Collector.ManagedHeap.TraceCard` | runtime/managed_gc.go:440-476 | fails exactly when a card word of an old entry holds a bad reference; otherwise every word of every old entry that meets the card has been followed |
| `Collector.ManagedHeap.TracePendingCards` | runtime/managed_gc.go:440-476 | fails exactly when some logged card holds a bad reference; otherwise all logged cards have been followed; no flag changes |
| `Collector.ManagedHeap.MarkRoots` | runtime/managed_gc.go:48-165 | fails exactly when some root is malformed or stale |
| `Collector.ManagedHeap.NextEpoch` | runtime/managed_gc.go:167-179 | no live entry carries the new mark, also when the epoch starts over |
| `ParallelMark.ParallelMarksReachable` | runtime/managed_gc.go:212-268 | for any number of workers and every interleaving of their steps: the queue never outgrows its capacity; when all are gone there was an error exactly if a reachable entry holds a bad reference; without an error the marks are exactly what the roots reach and the bytes are their sum |
| `ParallelMark.StepKeeps` | runtime/managed_gc.go:292-318 | each step of each worker, the double-checked marking included, keeps the invariant of the shared state |
| `ParallelFinish.StepNearer` | runtime/managed_gc.go:292-318 | every step of every worker that is not gone brings the end nearer, so that no schedule goes on for ever |
| `ParallelFinish.CanFinish` | runtime/managed_gc.go:212-268 | from every schedule so far the workers can go on until all of them are gone |
| `Collector.ManagedHeap.MarkCard` | runtime/managed_gc.go:752-776 | flags exactly the cards of the region besides those flagged before, and logs each newly flagged one once |
| `Collector.ManagedHeap.MarkYoungReferences` | runtime/managed_gc.go:778-827 | afterwards the promoted entry is remembered: each word with a young reference lies on a flagged, logged card |
| `Collector.ManagedHeap.PromoteObject` | runtime/managed_gc.go:593-635 | succeeds exactly when the last page of the first fitting list has a free cell; the entry then is old with the same handle and bytes and its young references are remembered; on failure nothing has moved |
| `Collector.ManagedHeap.CopySurvivor` | runtime/managed_gc.go:502-579 | the payload lies in the to-space of its page under the same handle, with the same bytes |
| `Collector.ManagedHeap.OpenToSpace` | runtime/managed_gc.go:502-579 | the spare of each nursery page becomes empty to-space |
| `Collector.ManagedHeap.EvacuateYoung` | runtime/managed_gc.go:502-579 | every marked young entry has left the from-space; all other entries are untouched |
| `Collector.ManagedHeap.RemoveDead` | runtime/managed_gc.go:502-579 | exactly the unmarked young entries are freed, and only entries that are still young stay in the young vector |
| `Collector.ManagedHeap.RemoveYoungSlot` | runtime/managed_gc.go:581-591 | swap-removal keeps the young vector and its index inverse to each other |
| `Collector.ManagedHeap.CloseFromSpace` | runtime/managed_gc.go:502-579 | from-pages, on which nothing live is left, become spares |
| `Collector.ManagedHeap.CopyNursery` | runtime/managed_gc.go:502-579 | the unmarked young entries are gone, every other entry keeps handle, bytes and graph; one that survives for the first time stays young and one that survives again becomes old if a cell is free; the remembered set and all vectors still fit; freed bytes move from occupied to reclaimed |
| `Collector.ManagedHeap.EvacuateOne` | runtime/managed_gc.go:515-543 | one survivor: it becomes old if and only if it has survived before and an old page has a free cell for its size; otherwise it is copied and is one collection older |
| `Collector.ManagedHeap.FreeObject` | runtime/managed_heap.go:824-869 | the slot leaves both vectors by swap-removal, its cell returns to its page, and it is listed as free exactly when a generation is left |
| `Collector.ManagedHeap.PartitionDead` | runtime/managed_gc.go:641-699 | the scratch queue partitions the occupied vector into dead and kept entries, chunk by chunk, whatever the number of workers |
| `Collector.ManagedHeap.SweepOld` | runtime/managed_gc.go:641-699 | exactly the unmarked old entries are freed |
| `Collector.ManagedHeap.ReclaimEmptyPages` | runtime/managed_gc.go:701-738 | exactly the unused pages of the old generation are given back, but for a reserve of one page per cell size; every live entry keeps its page and its bytes |
| `Collector.ManagedHeap.ResetCards` | runtime/managed_gc.go:740-750 | every card of every page is clean and the log is empty; nothing else changes |
| `Collector.ManagedHeap.RebuildYoungCards` | runtime/managed_gc.go:829-839 | the remembered set is complete again, built from the old entries alone |
| `Collector.ManagedHeap.CardHasYoung` | runtime/managed_gc.go:872-928 | true exactly when a word that meets the card refers to a live young entry |
| `Collector.ManagedHeap.RefreshPendingCards` | runtime/managed_gc.go:841-870 | exactly the cards that still hold a young reference stay flagged and logged, and no remembered reference is lost |
| `Refresh.RefreshKeepsRemembered` | runtime/managed_gc.go:841-870 | clearing the cards without young references keeps the remembered set complete |
| `Collection.MinorMarksExact` | runtime/managed_gc.go:48-165 | a minor collection marks exactly the young entries that roots or old entries reach |
| `Collection.MajorMarksExact` | runtime/managed_gc.go:48-165 | a major collection marks exactly what the roots reach |
| `Collection.CleanWhenResolved` | runtime/managed_gc.go:48-165 | where no entry holds a bad reference a collection is refused only because of a root |
| `Collection.MinorCollectionSafe` | runtime/managed_gc.go:48-165 | whatever the program can reach from the roots is published after a minor collection under the same handle with the same bytes |
| `Collector.ManagedHeap.CollectMinor` | runtime/managed_gc.go:48-165 | refused exactly when the roots, the logged cards or the young entries it reaches hold a bad reference; otherwise it keeps every old entry and exactly the reachable young ones, with handles and bytes, and whatever a kept entry holds the bytes of a handle to |
| `Collector.ManagedHeap.CollectMajor` | runtime/managed_gc.go:48-165 | refused exactly when the roots or an entry they reach hold a bad reference; otherwise it keeps exactly the entries reachable from the roots, with handles and bytes, and whatever a kept entry holds the bytes of a handle to; no live entry holds a bad reference |
| `Collector.ManagedHeap.Collect` | runtime/managed_gc.go:48-165 | which of the five outcomes occurs, exactly, also in heaps with stale references; refused collections change nothing; a finished one keeps exactly what it must, with every entry whose handle stands in the bytes of a kept one; reclaimed plus reachable bytes are the old occupied bytes, and the heap is ready again |
| `HeldHandles.PlainEdge` | runtime/managed_gc.go:336-416 | a plain word refers to an entry if and only if the eight bytes of its handle, slot then generation, lowest byte first, stand there |
| `HeldHandles.DynamicEdge` | runtime/managed_gc.go:383-413 | a dynamic value tagged as reference or boxed refers to an entry if and only if the bytes of its handle stand eight bytes on; with any other tag it refers to nothing |
| `HeldHandles.WordIsPlace` | runtime/managed_gc.go:336-416 | the words that are traced are exactly the listed references and dynamic values of each element |
| `HeldHandles.PointsByBytes` | runtime/managed_gc.go:336-416 | an entry that holds the bytes of a handle in such a place points to the entry; where it holds no bad reference it points to nothing else |
| `HeldHandles.HeldSurvives` | runtime/managed_gc.go:48-165 | after a minor or a major collection every entry whose handle a kept entry held is still published, with its handle, and still held |
| `HeldHandles.ChainSurvives` | runtime/managed_gc.go:48-165 | whatever a chain of held handles leads to from a root is still published after any collection, and the chain still leads there |
| `Collector.ManagedHeap.Wide` | runtime/managed_gc.go:418-438 | a sound heap in which a 3 GiB old entry holds the only reference to a young one, remembered and logged |
| `Collector.WideMinorLosesReachable` | runtime/managed_gc.go:440-476 | in that heap a minor collection rooted at the old entry frees the young entry it refers to |
| `Barrier.BarrierKeepsRemembered` | runtime/managed_heap.go:797-810 | any write of references that resolve, followed by dirtying the cards over the written bytes, keeps the remembered set complete |
| `Barrier.BornKeeps` | runtime/managed_heap.go:608-643 | publishing a zeroed young entry keeps every invariant of the heap |
| `Collector.ManagedHeap.constructor` | runtime/managed_heap.go:175-183 | a new heap is ready for writes and collections |
| `Collector.ManagedHeap.DirtyRegion` | runtime/managed_heap.go:797-810 | every card over the region is flagged; newly flagged ones are logged once, in the lane of the writer |
| `Collector.ManagedHeap.OwnerWrite` | runtime/managed_heap.go:711-772 | fails exactly on a stale reference or a range outside the payload; otherwise exactly those bytes change and the remembered set stays complete |
| `Collector.ManagedHeap.CountClean` | runtime/managed_allocation.go:285-323 | counts the clean cards of the region |
| `Collector.ManagedHeap.BatchWrite` | runtime/managed_allocation.go:285-323 | as the owner write, and refused without any change exactly when the newly dirty cards do not fit the log of the batch |
| `Collector.ManagedHeap.FlushCards` | runtime/managed_allocation.go:325-385 | the log of the batch is appended to the log of the heap once; a second flush changes nothing |
| `Collector.ManagedHeap.FlushedLogExact` | runtime/managed_allocation.go:325-385 | once every batch is flushed the heap log lists each dirty card exactly once |
| `Collector.ManagedHeap.BetweenSound` | runtime/managed_gc.go:48-165 | with every batch returned and nothing unpublished the heap is ready for a collection |
| `Collector.ManagedHeap.GuestWrite` | runtime/managed_heap.go:711-725 | a write of references the guest holds keeps the standing invariant between collections |
| `Collector.ManagedHeap.WorkerWrite` | runtime/managed_allocation.go:285-323 | the same for a write through an open batch; refused for lack of room in its log exactly when a new card has to be logged and the log is full |
| `Collector.ManagedHeap.GuestOpen` | runtime/managed_allocation.go:62-122 | a batch opens with an empty card log |
| `Collector.ManagedHeap.GuestFlush` | runtime/managed_allocation.go:325-385 | a batch returns; the standing invariant is kept |
| `Collector.ManagedHeap.GuestCollect` | runtime/managed_gc.go:48-165 | a collection at any time is refused exactly while a batch is out or a reservation is unpublished, keeps every entry whose handle stands in the bytes of a kept one, and leaves the standing invariant |
| `Collector.ManagedHeap.PublishYoung` | runtime/managed_heap.go:492-643 | a young entry of zero bytes appears at the end of a nursery page under a new generation; every other entry is untouched |
| `Collector.ManagedHeap.PublishLarge` | runtime/managed_heap.go:492-643 | a large entry of zero bytes appears as old on a page of its own with all cards dirty; every other entry is untouched; the cards stay addressable if and only if they were and those of the new entry are |
| `LargeEntries.SpannableAddressable` | runtime/managed_heap.go:492-643 | an entry that ends, with one more stride and card, below 4 GiB has addressable cards |
| `Session.RunScript` | runtime/managed_gc.go:40-46 | any sequence of writes, worker writes, young and large allocations, batch openings, flushes and collections from a standing heap: each operation gives exactly the specified answer, changes logs, batches and counters exactly as specified, and the heap stands for the next one |
| `Session.StoredHandleHeld` | runtime/managed_gc.go:336-416 | storing the bytes of a handle in a reference of an entry makes the entry hold the other one |
| `Session.ReachedSurvives` | runtime/managed_gc.go:48-165 | over every such run an entry that every collection reaches keeps its handle, and its bytes when nothing is stored to it, however often it is moved or promoted |
| `Allocation.Ledger.constructor` | runtime/managed_heap.go:175-183 | a new ledger has no segment, nothing issued and right accounts |
| `Allocation.Ledger.GrowDirectory` | runtime/managed_heap.go:285-326 | one more segment of free entries; every account stays as it was |
| `Allocation.Ledger.AcquireBatch` | runtime/managed_allocation.go:62-122 | the exact outcome; a granted lease holds its credit and exactly the tickets from the end of the free list and then from the counter; the accounts stay right if and only if the counter has not wrapped or the free list suffices |
| `Allocation.Ledger.Refill` | runtime/managed_allocation.go:127-188 | the exact outcome; an open lease keeps its tickets and gains credit and exactly the next tickets; the accounts stay right under the same condition |
| `Allocation.Ledger.BatchReserve` | runtime/managed_allocation.go:190-231 | the exact outcome; a reservation takes the next ticket, a handle never issued before, and bytes out of the credit |
| `Allocation.Ledger.BatchCommit` | runtime/managed_allocation.go:233-245 | reserved bytes become committed, once per reservation |
| `Allocation.Ledger.BatchAbort` | runtime/managed_allocation.go:247-256 | an unfinished reservation gives its bytes back; a finished one is left alone |
| `Allocation.Ledger.AbortUnfinished` | runtime/managed_allocation.go:261-281 | every reservation of the batch is finished, unused tickets included; no entry changes that was not merely reserved, and no other batch |
| `Allocation.Ledger.Flush` | runtime/managed_allocation.go:325-385 | succeeds exactly when nothing is unfinished; the committed slots are appended to the occupied ones and the others to the free ones, exhausted generations excepted; committed bytes become occupied and the rest of the credit returns; a second flush changes nothing |
| `Allocation.Ledger.AdmitGuestBytes` | runtime/managed_heap.go:470-490 | succeeds exactly when the bytes fit the limit or the unused credit of the open lender makes up for it; lends exactly what is missing |
| `Allocation.Ledger.OwnerReserve` | runtime/managed_heap.go:492-566 | the exact outcome; a granted reservation gives a handle never issued before; the counter wraps if and only if the last 32-bit slot is handed out, and a reservation faults if and only if the counter has wrapped, nothing is free and bytes and space are admitted |
| `Allocation.Ledger.Full` | runtime/managed_heap.go:492-566 | a valid ledger that has given out every slot but the last, with the handles recorded |
| `Allocation.WrappedCounterFaults` | runtime/managed_heap.go:492-566 | from that ledger the second reservation faults |
| `Allocation.WrappedCounterSharesLiveSlot` | runtime/managed_allocation.go:62-122 | from that ledger, once the counter has wrapped, a batch is granted whose tickets are the slots from zero on, so that the slot of a live object is in two lists |
| `Allocation.Ledger.DirectCommit` | runtime/managed_heap.go:608-643 | an owner reservation becomes occupied |
| `Allocation.Ledger.DirectAbort` | runtime/managed_heap.go:645-661 | an owner reservation gives its bytes and its slot back |
| `Allocation.Ledger.FreeObject` | runtime/managed_heap.go:824-869 | a published entry leaves the occupied list; its slot is free again exactly when a generation is left |
| `Allocation.Ledger.ReserveControl` | runtime/managed_heap.go:887-904 | control bytes are admitted within the same limit, all or nothing |
| `Allocation.Ledger.CommitControl` | runtime/managed_heap.go:906-922 | pending control bytes become occupied |
| `Allocation.Ledger.AbortControl` | runtime/managed_heap.go:924-933 | pending control bytes are given back |
| `Allocation.Ledger.ReleaseControl` | runtime/managed_heap.go:935-947 | never gives back more than is held |
| `Allocation.Ledger.FreeSlotsReusable` | runtime/managed_heap.go:492-566 | no exhausted slot is ever on the free list, so the loop that skips such slots finds none |
| `Allocation.Ledger.SlotInOnePlace` | runtime/managed_heap.go:824-869 | while the accounts are right a slot that was handed out is in exactly one list, or in none because its generations are used up |
| `Layouts.Build` | runtime/managed_layout.go:456-625 | the recursion and its loops compute `Prepared`: which types fail, and stride and offsets of the others, each as a 32-bit number |
| `Layouts.BuiltLayoutValid` | runtime/managed_layout.go:456-625 | a type whose parts stay below 4 GiB gets the true width and offsets that are sorted, disjoint and inside the stride |
| `Layouts.OverflowCheck` | runtime/managed_layout.go:456-625 | an array is refused exactly when its bytes do not fit 32 bits |
| `Layouts.ArrayExactIff` | runtime/managed_layout.go:456-625 | an array of an element that is built exactly is built exactly if and only if it fits 32 bits |
| `Layouts.NumericBytes` | runtime/managed_layout.go:456-625 | the widths of the numeric kinds, in bytes |
| `LayoutPlaces.WidthIs` | runtime/managed_layout.go:456-625 | the width of every shape: an array is as wide as its elements together, a struct ends with its last field, an empty struct takes eight bytes |
| `LayoutPlaces.ListsLeaves` | runtime/managed_layout.go:456-625 | through any nesting of structs and arrays the exact layout lists precisely the places of a value that hold a reference, and precisely those that hold a dynamic value |
| `LayoutPlaces.PreparedListsLeaves` | runtime/managed_layout.go:456-625 | so does the 32-bit layout of a type whose parts stay below 4 GiB |
| `Layouts.StructBuiltIff` | runtime/managed_layout.go:456-625 | a struct whose fields are built exactly is itself built exactly, and with its true width, if and only if that width fits 32 bits |
| `Layouts.WideStructWraps` | runtime/managed_layout.go:456-625 | a concrete struct of more than 4 GiB for which the builder returns 24 bytes |
| `LinkProgram.LeastUnique` | compiler/linker_reachability.go:33-568 | there is at most one least set of facts closed under the rules of reachability, so the order of discovery cannot matter |
| `LinkTypes.ReceiverIff` | compiler/linker_reachability.go:570-599 | a receiver is a declared type if and only if a chain of pointers and instances leads to a reference that names it |
| `LinkWorklist.Reachability.Prepare` | compiler/linker_reachability.go:53-103 | whatever the order of the modules, the method tables are complete and initializers and entries are queued |
| `LinkWorklist.Reachability.VisitType` | compiler/linker_reachability.go:114-190 | a type visit reaches exactly what the rules force, also through cycles of types, and ends; the rules are stated on the fields of the node by `LinkRules.MentionsIff` and `LinkByFields.TypeAsksIff` |
| `LinkRules.OpensIff` | compiler/linker_reachability.go:114-190 | which node of the table a reference opens: the one with its identifier, or the one it names |
| `LinkRules.MentionsIff` | compiler/linker_reachability.go:114-190 | the parts of a type are its alias target, underlying type, element, key, parameters, results, tuple items, fields, terms, constraint, base and type arguments, and nothing else |
| `LinkRules.EffectsIff` | compiler/linker_reachability.go:279-488 | what one instruction reaches, exactly, by its operands: types, functions, called interfaces and methods asked for by reflection |
| `LinkRules.FollowableIff` | compiler/linker_reachability.go:279-488 | an instruction is refused if and only if it cannot be decoded or what it loads or returns is missing |
| `LinkRules.UnderlyingIs` | compiler/types/query.go:10-57 | the underlying type is the end of the chain of aliases and declarations, although the walk is bounded by the number of nodes |
| `LinkRules.InterfaceIff` | compiler/types/query.go:93-111 | a type is an interface with given methods if and only if its chain ends at an interface that lists them, or its own node does |
| `LinkByFields.TypeAsksIff` | compiler/linker_reachability.go:114-190 | a used type asks for `Error() string` if and only if it is the error type or an interface with that one method |
| `LinkByFields.InterfaceAsksIff` | compiler/linker_reachability.go:218-278 | a called interface asks for exactly its methods, by name and signature, and the error type for `Error() string` |
| `LinkByFields.InterfaceLeadsIff` | compiler/linker_reachability.go:218-278 | a called interface leads to exactly what its methods take and return and to the parts of its underlying type |
| `LinkByFields.FunctionLeadsIff` | compiler/linker_reachability.go:279-488 | a kept function leads to exactly the types it declares, the constants it loads and what its instructions reach |
| `LinkWorklist.Reachability.VisitInterface` | compiler/linker_reachability.go:218-278 | every method an interface demands has become a requirement |
| `LinkWorklist.Reachability.RequireMethod` | compiler/linker_reachability.go:202-217 | a new requirement meets every receiver found before |
| `LinkWorklist.Reachability.AddReceiver` | compiler/linker_reachability.go:114-190 | a new receiver meets every requirement found before |
| `LinkWorklist.Reachability.EnableReflection` | compiler/linker_reachability.go:191-201 | with reflection every method of every receiver found is queued |
| `LinkWorklist.Reachability.FollowBody` | compiler/linker_reachability.go:279-488 | everything a kept body reaches has become a fact, or the body is one the linker must report |
| `LinkWorklist.Reachability.Turn` | compiler/linker_reachability.go:279-488 | one turn keeps a function or fails exactly on a necessary function that is broken; the functions not kept yet decrease |
| `LinkWorklist.Reachability.Run` | compiler/linker_reachability.go:33-488 | succeeds exactly when no function that every solution keeps is broken; then what it found is the least solution of the rules, and the least of the rules on the fields of nodes and instructions, whatever the order in which modules, receivers and requirements came |
| `LinkByFields.LeastIsByFields` | compiler/linker_reachability.go:33-488 | the least solution of the rules is the least one of the rules stated on fields |
| `LinkByFields.UsedIff` | compiler/linker_reachability.go:114-190 | a type is used if and only if it is reached, part by part, from a type that a kept body declares, loads or mentions |
| `LinkByFields.CalledInterfaceAsks` | compiler/linker_reachability.go:218-278 | each method of an interface that a kept body calls is asked for |
| `LinkByFields.RequiredMethodKept` | compiler/linker_reachability.go:191-217 | a method of a type that kept bodies reach is kept when it is asked for by name and signature, or when methods are listed by reflection |
| `LinkByFields.FactsFounded` | compiler/linker_reachability.go:33-488 | a function, receiver or requirement is there if and only if it has a reason: an entry, an initialiser, a call, a wanted method, a used type, a called interface |
| `LinkPrune.RetainName` | compiler/linker_reachability.go:539-560 | an imported name survives unless its first function export is dropped |
| `LinkPrune.Rewrite` | compiler/linker_reachability.go:489-568 | refuses exactly the artifacts that have a requirement of another kind or a table that cannot be indexed; otherwise the result is the program restricted to the kept functions |
| `LinkPrune.RetainReachableCode` | compiler/linker_reachability.go:33-568 | succeeds if and only if no necessary function is broken and every artifact can be rewritten; the result is the restriction to the least solution, which is also the least one of the rules on the fields |
| `LinkPrune.ValidateLinkedReferences` | compiler/linker_validation.go:15-112 | accepts exactly the programs all of whose references link |
| `LinkPrune.PrunedLinksIff` | compiler/linker_image.go:78-91 | a linkable program stays linkable after pruning if and only if no kept body relies on a padded path to a dropped function |
| `LinkPrune.LinksAfterPruningIff` | compiler/linker_image.go:78-91 | the same with a condition on the input alone: every necessary padded reference has a necessary target |
| `LinkPrune.TrimmedProgramLinks` | compiler/linker_image.go:78-91 | without padded paths pruning always keeps a linkable program linkable |
| `LinkPrune.PaddedTargetLost` | compiler/linker_image.go:78-91 | a concrete linkable program in which the call through a padded path is necessary and its literal target is not |
| `LinkOrder.RetainReachableModules` | compiler/linker_image.go:220-243 | keeps exactly the modules reachable from the root; fails exactly when one of them is missing |
| `LinkOrder.DependencySearch.Run` | compiler/linker_reachability.go:614-653 | every module once; on complete acyclic programs every requirement comes before the module that has it |
| `LinkOrder.BindHashes` | compiler/linker_image.go:108-131 | succeeds exactly on orders in which every requirement comes first |
| `LinkOrder.OrderedOnlyIfAcyclic` | compiler/linker_image.go:108-131 | such an order exists only for complete and acyclic programs |
| `LinkOrder.OrderAndBind` | compiler/linker_image.go:92-131 | ordering and hash binding succeed if and only if the program is complete and acyclic, whatever modules are preferred |
| `LinkOrder.Link` | compiler/linker_image.go:78-131 | for each of the six outcomes the exact condition on the input under which linking ends there; a linked program is the restriction of the reachable modules to the necessary functions, links, and has no cycle |
| `LinkOrder.PaddedPathBreaks` | compiler/linker_image.go:78-91 | the concrete program passes the first validation and the pruning and is refused by the second validation |
| `Wire.UintRoundTrip` | rpc/wire_codec.go:31-37 | a 64-bit number is read back from its varint, whatever follows |
| `Wire.UintMeans` | rpc/wire_codec.go:31-37 | a varint is the number in groups of seven bits, each but the last marked as going on, and never one too many |
| `Wire.ZigZagIsShift` | rpc/wire_codec.go:33-37 | the zig-zag of a 64-bit integer is its two's complement shifted by one, all bits flipped if it is negative |
| `Wire.ZigZagByMagnitude` | rpc/wire_codec.go:33-37 | smaller magnitudes have smaller codes, and a negative integer comes just before its opposite |
| `Wire.UintCanonical` | rpc/wire_codec.go:118-136 | the reader accepts exactly the bytes the writer produces, followed by anything; padded and overlong forms are refused |
| `Wire.IntCanonical` | rpc/wire_codec.go:139-145 | exactly the zig-zag encodings of 64-bit integers are accepted |
| `Wire.RawCanonical` | rpc/wire_codec.go:200-213 | exactly the encodings of byte strings within the limit are accepted |
| `Wire.Encoder.Uint` | rpc/wire_codec.go:31-37 | appends the base-128 groups |
| `Wire.Encoder.Raw` | rpc/wire_codec.go:68-71 | appends length and bytes |
| `Wire.Decoder.Uint` | rpc/wire_codec.go:118-136 | reads what `ParseUint` says, or fails and does not advance |
| `Wire.Decoder.Int` | rpc/wire_codec.go:139-145 | reads what `ParseInt` says, or fails |
| `Wire.Decoder.Bool` | rpc/wire_codec.go:106-115 | only the bytes 0 and 1 are booleans |
| `Wire.Decoder.Fixed` | rpc/wire_codec.go:147-154 | a fixed number of bytes, or fails |
| `Wire.Decoder.Raw` | rpc/wire_codec.go:195-213 | length-delimited bytes within the limit and within what remains |
| `Values.Budget.Validate` | rpc/value.go:65-150 | the counters end at the totals over the whole value tree; accepted exactly when the structural rules and both budgets hold |
| `Values.ValidateValues` | rpc/value.go:65-150 | accepts exactly the value lists whose structure, depth, item total and byte total are within the rules |
| `ValueParts.AcceptableIff` | rpc/value.go:65-150 | arguments are acceptable if and only if every value in them, however deep, obeys the rules at its depth and together they keep both totals |
| `ValueCodec.MapPermuted` | rpc/endpoint_value_codec.go:75-155 | a decoded map holds the entries of the original, each with canonical parts, in some order |
| `ValueCodec.MapOrderIrrelevant` | rpc/endpoint_value_codec.go:75-155 | maps with the same entries and distinct encoded keys have one encoding |
| `ValueCodec.KindByte` | rpc/endpoint_value_codec.go:75-155 | the first byte of encoded data names its kind |
| `ValueCodec.EncodeValues` | rpc/endpoint_value_codec.go:13-30 | refuses exactly the lists that break a rule or do not fit the message limit; the loop builds `EncodeAll` |
| `ValueCodec.DecodeValues` | rpc/endpoint_value_codec.go:33-57 | the loop over the bytes computes `DecodeAll`, trailing bytes and budget included |
| `CanonicalForm.RoundTrip` | rpc/endpoint_value_codec.go:75-260 | whatever follows, the encoding of any sound value decodes to the value in canonical order |
| `CanonicalForm.ValuesRoundTrip` | rpc/endpoint_value_codec.go:13-57 | whatever encoding accepts, decoding returns in canonical order under the same rules |
| `CanonicalForm.DecodesExactly` | rpc/endpoint_value_codec.go:33-57 | a payload decodes to values if and only if it is those values written as they stand, the rules accept them and the payload is within the limit |
| `CanonicalForm.DecodedCanonicalIff` | rpc/endpoint_value_codec.go:157-260 | decoded values encode to the bytes they came from if and only if every map and every struct among them is in ascending order |
| `CanonicalForm.BackwardAccepted` | rpc/endpoint_value_codec.go:157-260 | a concrete struct with its fields backward is accepted and encodes to other bytes |
| `Ordering.AscendingUnique` | rpc/endpoint_value_codec.go:75-155 | sorting by distinct keys has one result, so an unstable sort is as good as a stable one there |
| `Fragments.HeaderFits` | rpc/endpoint_fragment.go:27-48 | the header of a fragment always fits the room the writer leaves for it |
| `Fragments.FragmentRoundTrip` | rpc/endpoint_fragment.go:27-88 | a fragment that was sent is read back by every receiver with limits at least as large |
| `Fragments.Assembly.Append` | rpc/endpoint_fragment.go:90-119 | the exact answer and new state of the reader: a fragment continues, completes or is refused |
| `Fragments.Writer.SendData` | rpc/endpoint_transport.go:367-504 | the next fragment of the data message under way, cut to the frame limit |
| `Fragments.Writer.Turn` | rpc/endpoint_transport.go:367-504 | the new state of the write loop and the bytes that go out, for every offer of its queues, timeouts and re-encoded timeouts included |
| `Fragments.StreamDelivers` | rpc/endpoint_transport.go:601-638 | for every run of the two loops: no fragment is refused, the control messages sent are delivered whole and in order, the data messages taken are delivered as they were encoded, in order, and at most one is under way |
| `Fragments.WaitsBehindFour` | rpc/endpoint_transport.go:367-504 | no run lets more than four control fragments in a row pass a data message that waits and can go |
| `FragmentTurns.TurnSends` | rpc/endpoint_transport.go:367-504 | what a turn sends, by the turns before it: the whole control message, or the next cut of the data message after four control messages or when no control message waits |
| `FragmentTurns.FailsIff` | rpc/endpoint_transport.go:367-504 | the writer has failed if and only if some turn broke it |
| `FragmentTurns.SteadyDelivers` | rpc/endpoint_transport.go:367-504 | a data message offered to an idle writer is delivered whole after as many undisturbed turns as it has frames |
| `Fragments.FailedStays` | rpc/endpoint_transport.go:367-504 | after a failure nothing is sent any more |
| `Fragments.Exchange` | rpc/endpoint_transport.go:367-504 | the two loops, turn by turn, deliver exactly the messages of the model run |
| `TwoPhase.DecisionAppliedOnce` | rpc/result.go:65-134 | over every interleaving of waiters, decision thread and shutdown: at most one decision is applied, and it is the one that was taken |
| `TwoPhase.DecisionStays` | rpc/result.go:65-134 | a decision that was taken never changes |
| `TwoPhase.ReleaseOnce` | rpc/result.go:136-154 | the release runs at most once, and never when an accepting waiter was told that the result is its |
| `TwoPhase.ToldTheTruth` | rpc/result.go:65-112 | whoever is told that its decision holds asked for the decision that was applied |
| `TwoPhase.AbandonedIsReleased` | rpc/result.go:136-154 | an accepted result that everybody has given up is released once, unless the decision failed |
| `TwoPhaseRuns.DecidedAsFirst` | rpc/result.go:65-112 | over every run a result is decided as its first caller, or a shutdown before any, wanted it, and not otherwise |
| `TwoPhaseRuns.EntryIff` | rpc/result.go:65-112 | a caller waits if and only if the result was not decided the other way and, for an accept, was not given up before |
| `TwoPhaseRuns.ReleasedIff` | rpc/result.go:65-154 | the release runs, once, if and only if steps decided to accept, ended the decision without an error, and let the last waiter leave with its context ended when nobody had been told |
| `TwoPhaseRuns.CanComeToRest` | rpc/result.go:65-171 | from every run the decision can be applied and every waiter leave; whoever waits with a live context is told, unless owner or release reported an error |
| `TwoPhase.Result.Enter` | rpc/result.go:65-112 | the first locked region follows the state machine; the first caller starts the decision |
| `TwoPhase.Result.Claim` | rpc/result.go:136-147 | the claim follows the state machine and reports whether it was granted; it is granted at most once |
| `TwoPhase.Result.ApplyNow` | rpc/result.go:114-134 | the owner is called with the decision that was taken |
| `TwoPhase.Result.Finish` | rpc/result.go:114-134 | the end of the decision follows the state machine; `done` is closed once |
| `TwoPhase.Result.Depart` | rpc/result.go:65-112 | a waiter that wakes is told the outcome or gives up, as in the state machine |
| `TwoPhase.Result.ReleaseDone` | rpc/result.go:149-154 | an error of the release is remembered |
| `TwoPhase.Result.JoinForShutdown` | rpc/result.go:158-171 | joins the decision under way, or starts the one to discard |
| `Leases.BindingLeaseSafe` | rpc/endpoint.go:343-405 | over every run: a binding that expired at the receiver by time is no longer live at a caller whose `Bind` has returned |
| `Leases.OperationLeaseSafe` | rpc/endpoint_lease.go:225-301 | over every run: an operation whose own lease ran out at the receiver is no longer live at the caller |
| `Leases.LiveNotExpired` | rpc/endpoint_lease.go:225-301 | while operation and confirmed binding are both live at the caller, time alone takes neither at the receiver |
| `LeaseRenewal.LiveExactly` | rpc/endpoint_lease.go:225-268 | over every run a binding is live at the caller if and only if a bind reply, or an acknowledgement taken while it was live, gave it until after now; the term of an acknowledgement runs from the sending of its renewal |
| `LeaseRenewal.OperationLiveExactly` | rpc/endpoint_lease.go:225-268 | the same for an operation, whose first term runs from the sending of its request |
| `LeaseRenewal.AcknowledgedStaysLive` | rpc/endpoint_lease.go:225-268 | what an acknowledgement lists and the caller still counts on stays live until the end of its term, whatever happens |
| `LeaseRenewal.HeldExactly` | rpc/endpoint_lease.go:270-301 | over every run the receiver holds a binding if and only if it was not asked to close it and granted or renewed it less than a term ago |
| `LeaseRenewal.OperationHeldExactly` | rpc/endpoint_lease.go:270-301 | an operation likewise, unless it has finished or went with its binding |
| `LeaseRenewal.LetGoIff` | rpc/endpoint_lease.go:303-411 | the receiver lets a binding go when it is asked to or when the lease is over, and at no other step |
| `LeaseRenewal.OperationLetGoIff` | rpc/endpoint_lease.go:303-411 | an operation goes when it is finished, when its own lease is over or with its binding, and at no other step |
| `LeaseRenewal.ForgottenIff` | rpc/endpoint_lease.go:303-411 | the caller forgets exactly what it sweeps after the lease is over |
| `LeaseRenewal.RenewalSent` | rpc/endpoint_lease.go:113-185 | a renewal lists exactly those of its targets that are live at the caller |
| `LeaseRenewal.RenewalAnswered` | rpc/endpoint_lease.go:270-301 | its acknowledgement lists exactly those that the receiver holds |
| `LeaseRenewal.NeverLost` | rpc/endpoint_lease.go:113-301 | a caller whose renewals come back in time never loses a confirmed binding, unless the receiver was asked to close it |
| `LeaseRenewal.OperationNeverLost` | rpc/endpoint_lease.go:113-301 | nor an operation that has arrived, unless it has finished or went with its binding |
| `Leases.OrphanedOperation` | rpc/endpoint_lease.go:303-411 | an operation cancelled with its binding belongs to a binding that is not live at a caller that has confirmed it |
| `Leases.TakenIffOrphaned` | rpc/endpoint_lease.go:303-411 | a live operation that has arrived is taken by time if and only if it was cancelled with its binding |
| `Leases.LiveTakenIff` | rpc/endpoint_lease.go:303-411 | over every run the next step takes a live operation by time if and only if it is the sweep of its own binding and that binding has run out |
| `Leases.OperationOutlivesBinding` | rpc/endpoint_lease.go:303-411 | a concrete run in which the binding runs out at both ends and takes a live operation with it |
| `Resources.NoCloseWhileBorrowed` | rpc/route_set_resources.go:70-171 | over every interleaving: while the close of a resource runs, no handler borrows it |
| `Resources.CloseExclusive` | rpc/route_set_resources.go:207-257 | two close attempts on one resource never run at the same time |
| `Resources.NeverClosedAgain` | rpc/route_set_resources.go:207-257 | a resource whose close has succeeded is never closed again |
| `Resources.ClosedExactly` | rpc/route_set_resources.go:310-357 | when the route set is closed, a resource has had a close attempt if and only if no deletion of a provisional list lost it |
| `Resources.EveryResourceAttempted` | rpc/route_set_resources.go:310-357 | when no export comes after its result was taken, every resource ever exported has had a close attempt once the route set is closed |
| `Resources.LostExactly` | rpc/route_set_resources.go:173-192 | a resource is lost if and only if it was exported after its result was taken and its call was decided afterwards while the route set accepted |
| `ResourceRuns.BorrowIff` | rpc/route_set.go:323-375 | over every run a new call gets under way if and only if the route set takes calls of its kind and everything it borrows came with an accepted result and has not been claimed by a close attempt |
| `ResourceRuns.DropIff` | rpc/route_set_resources.go:70-171 | a drop gets under way if and only if the route set accepts, the resource came with an accepted result and is still there, and no close attempt of it is under way |
| `ResourceRuns.AcceptedUsable` | rpc/route_set_resources.go:173-192 | whatever happens after a result is accepted, its resources can be borrowed and dropped as long as the route set accepts and no close attempt was registered |
| `ResourceRuns.UnusableBefore` | rpc/route_set_resources.go:173-192 | before the accept they could be neither borrowed nor dropped |
| `ResourceRuns.AbandonedReleased` | rpc/route_set.go:486-503 | a decided result can be released again, all of it, as long as the route set accepts |
| `ResourceRuns.AttemptHistory` | rpc/route_set_resources.go:207-257 | close attempts and successful closes are exactly those that steps made |
| `ResourceClosing.CanAlwaysClose` | rpc/route_set_resources.go:259-384 | from every run the route set can be closed; then every resource has had a close attempt except those exported late and lost |
| `ResourceClosing.DrainedCloses` | rpc/route_set_resources.go:259-308 | a route set that was told to close ends without force if and only if no call and no result is left and every resource it ever exported was closed with success |
| `Resources.UnattemptedExactly` | rpc/route_set_resources.go:310-357 | when the route set is closed, exactly those resources have had no close attempt that were exported late and whose call was then decided while the route set still accepted |
| `Resources.LateExportIsLost` | rpc/route_set_resources.go:391-414 | a concrete run: a handler returns, exports once more, its result is accepted, and that resource is never closed |
| `Select.CommittedInv` | runtime/channel_select.go:128-184 | committing any ready case of any selection keeps the invariant: lists, bytes, first-in-first-out contents, no meeting missed, outcomes and transfers in step |
| `Select.CommittedFifo` | runtime/channel_select.go:128-184 | what was received from a channel and what is buffered are, in order, what was sent to it |
| `Select.ReadyIff` | runtime/channel_select.go:128-184 | a case can go ahead if and only if its channel is closed, has room for a send or a value for a receive, or a partner waits there |
| `Select.CommittedReports` | runtime/channel_select.go:128-184 | what a case reports: a send fails on a closed channel, hands over or appends; a receive takes the oldest value, else that of a waiting sender, else the zero value without ok |
| `Select.RegisteredInv` | runtime/channel_select.go:194-210 | publishing all cases of a selection that cannot go ahead leaves no meeting undone and nothing buffered unreceived |
| `Select.WithdrawnInv` | runtime/channel_select.go:212-243 | withdrawing a selection takes it off every list and gives its bytes back |
| `Select.ShutInv` | runtime/waitable.go:138-160 | closing a channel keeps the invariant, and whoever waits on it can go ahead |
| `SelectExchange.Exchange.SelectionPeer` | runtime/channel_select.go:119-126 | the first waiting case of the other direction that belongs to another open selection, or none exactly when there is none |
| `SelectExchange.Exchange.Unlink` | runtime/channel_select.go:212-232 | the doubly linked list without the case; the links of all other cases stay right |
| `SelectExchange.Exchange.Release` | runtime/channel_select.go:234-243 | the bytes of a selection are given back once |
| `SelectExchange.Exchange.Unregister` | runtime/channel_select.go:212-232 | the selection waits nowhere and its bytes are given back |
| `SelectExchange.Exchange.Complete` | runtime/channel_select.go:186-192 | the outcome is recorded once |
| `SelectExchange.Exchange.AppendCases` | runtime/channel_select.go:194-210 | every case with a channel is at the end of its list, in case order |
| `SelectExchange.Exchange.Register` | runtime/channel_select.go:194-210 | a blocked selection waits on all its channels |
| `SelectExchange.Exchange.ReadyCases` | runtime/channel_select.go:128-184 | exactly the cases that can go ahead, in ascending order |
| `SelectExchange.Exchange.CommitSend` | runtime/channel_select.go:128-184 | the new world is the one in which that send went ahead |
| `SelectExchange.Exchange.CommitReceive` | runtime/channel_select.go:128-184 | the new world is the one in which that receive went ahead |
| `SelectExchange.Exchange.TryCommit` | runtime/channel_select.go:128-184 | commits exactly one ready case if there is any, and otherwise changes nothing; a finished selection stays as it is |
| `SelectExchange.Exchange.Cancel` | runtime/channel_select.go:212-243 | a blocked task gives up: its selection waits nowhere and its bytes are given back |
| `SelectExchange.Exchange.TrySend` | runtime/waitable.go:49-78 | a value is taken unless the channel is closed, has no room or its storage fails |
| `SelectExchange.Exchange.TryReceive` | runtime/waitable.go:80-136 | a value is handed over from the buffer or from the first waiting sender, in order |
| `SelectExchange.Exchange.Close` | runtime/waitable.go:138-160 | refused exactly for a channel that is closed already |
| `SelectExchange.Exchange.MakeChannel` | runtime/waitable.go:25-47 | a new empty open channel |
| `SelectExchange.Exchange.Prepare` | runtime/channel_select.go:39-87 | the bytes are charged first and given back exactly if a case turns out to be impossible |
| `SelectExchange.Exchange.SelectStatement` | runtime/scheduler_control.go:22-45 | a ready case goes ahead if there is one; only without one does the default end the selection or do all cases wait; only a waiting selection stays charged |
| `SelectExchange.Exchange.ReflectSelect` | runtime/reflect_select.go:70-93 | takes its default exactly when it has one and no case can go ahead, and exactly then the selection is given up unfinished with its bytes still charged; otherwise a ready case goes ahead or all cases wait |
| `SelectExchange.OneTransfer` | runtime/channel_select.go:128-184 | in every valid state at most one case of a selection has transferred a value, and it transferred one |
| `SelectExchange.ReflectDefaultLeaks` | runtime/reflect_select.go:70-93 | a concrete program: selecting n times by reflection with a default on an empty channel leaves n selections charged |
| `HostCall.DiscardedOnce` | runtime/ffi_call.go:91-153 | over every interleaving of starting, completing, stopping and settling: a reply is discarded at most once and never when the guest got it; once done with, it was one or the other |
| `HostCallRuns.ReplyFate` | runtime/ffi_call.go:243-337 | over every run a reply that a step handed to the guest is never discarded; any other disposable reply that is done with was discarded at one step, and no other reply |
| `HostCallRuns.GuestCanTakeIff` | runtime/ffi_call.go:157-298 | the guest's next attempt takes the outcome of a call if and only if its start has returned, a reply has come or the start has failed, and nothing has settled the call |
| `HostCallRuns.SettledOneWay` | runtime/ffi_call.go:300-337 | no call is both consumed and canceled |
| `HostCallRuns.HandleFate` | runtime/ffi_call.go:157-197 | the handle of a call is canceled, once, if and only if the host gave one and the call was canceled or failed to start |
| `HostCallRuns.ReplyReachesGuest` | runtime/ffi_call.go:91-298 | a good reply that arrives at a waiting call and can be paid for is what the guest takes, whatever happens in between, unless the call was settled first |
| `HostCallRuns.CanComeToRest` | runtime/ffi_call.go:300-344 | from every run all calls can be settled and all replies done with; the counters are then zero and a disposable reply was discarded unless the guest got it |
| `HostCall.CountersExact` | runtime/limits.go:111-153 | over every run bytes and events are the sums over unsettled calls and admissions under way, and never exceed their limits |
| `HostCall.QuietBalance` | runtime/ffi_call.go:300-337 | when every call is settled the counters are zero and each disposable reply was discarded once or delivered |
| `HostCall.HandleCanceledExactly` | runtime/ffi_call.go:157-197 | over every run the handle of the host is canceled once, or about to be, exactly when there is one and the call was canceled or its start failed; never for a consumed call that started well |
| `HostCall.StepInv` | runtime/ffi_call.go:111-344 | every step keeps the invariant that ties counters, calls, replies and handles together |
| `HostCall.Machine.ReservePendingEvent` | runtime/limits.go:111-124 | an event is reserved unless the limit is reached |
| `HostCall.Machine.ReserveRequestBytes` | runtime/limits.go:126-143 | the bytes are reserved unless they exceed what is left; then the event is given back |
| `HostCall.Machine.CreateCall` | runtime/ffi_call.go:199-239 | the pending call holds exactly its reservations |
| `HostCall.Machine.CompleteReply` | runtime/ffi_call.go:111-153 | a reply settles, is kept for the guest, or is discarded, as in the state machine |
| `HostCall.Machine.FinishStarting` | runtime/ffi_call.go:157-197 | a call that was settled while starting cancels its handle; otherwise the handle is kept, and a failed start leaves the call ready with an error to be taken |
| `HostCall.Machine.Materialize` | runtime/ffi_call.go:243-298 | the guest gets the reply, and only that one, and the call is settled exactly when it is ready and its values can be published; otherwise nothing changes; what the guest got is never discarded |
| `HostCall.Machine.Stop` | runtime/ffi_call.go:339-344 | a call that is not settled is settled as canceled, once |
| `HostCall.Machine.ReleasePendingEvent` | runtime/limits.go:145-153 | the event of a settled call is given back |

## Findings

Properties the code was meant to have and does not have on all inputs. Each comes with a concrete input and with the
exact condition under which the property holds.

* A card of a very large object can be traced as empty: when the end of the card plus one stride passes 4 GiB, the
  32-bit sum in the element range wraps (`runtime/managed_gc.go:418-438`). `Cards.CardTraceExactIff` gives the
  condition; `Collector.WideMinorLosesReachable` is a minor collection that frees an entry its root still refers to.
  Minor collections are therefore stated for heaps whose cards are addressable. Every operation keeps that except the
  publication of a large entry, and `Collector.ManagedHeap.PublishLarge` says exactly when that one does.
* When the owner hands out the last 32-bit slot, the slot counter wraps to the null slot, because the test against the
  end of the range is made only when the directory has to grow (`runtime/managed_heap.go:511-518`).
  `Allocation.Ledger.OwnerReserve` gives the condition. Afterwards an owner reservation that finds nothing free faults
  on the missing entry of slot zero (`Allocation.WrappedCounterFaults`). The batch path refuses before the wrap but not
  after it: `Allocation.WrappedCounterSharesLiveSlot` leases tickets for slots of live objects, and
  `Allocation.Ledger.AcquireBatch` says exactly when.
* The running offset of a struct wraps at 4 GiB without an error, unlike the size of an array
  (`runtime/managed_layout.go:456-625`). `Layouts.StructBuiltIff` gives the condition; `Layouts.WideStructWraps` gets
  24 bytes.
* A module path with surrounding blanks is looked up as it stands by the validation
  (`compiler/linker_validation.go:66-107`) and trimmed by the reachability search
  (`compiler/linker_reachability.go:382`, `compiler/linker_reachability.go:416`).
  `LinkPrune.LinksAfterPruningIff` gives the condition on the input; `LinkOrder.PaddedPathBreaks` is a program that
  passes the first validation and is refused after pruning.
* The decoder of values accepts maps and structs in any order, although the payload is called canonical
  (`rpc/endpoint_value_codec.go:32-57`). `CanonicalForm.DecodedCanonicalIff` says exactly which payloads are reproduced
  by encoding again; `CanonicalForm.BackwardAccepted` is one that is not.
* A resource that a handler exports after its result was taken is dropped from every list when the call is decided
  (`rpc/route_set_resources.go:173-192`). `Resources.UnattemptedExactly` says exactly which resources are never closed;
  `Resources.LateExportIsLost` is such a run.
* The lease of an operation does not outlive its binding: the sweep of an expired binding cancels operations that are
  still live at the caller (`rpc/endpoint_lease.go:303-411`). `Leases.LiveTakenIff` gives the condition;
  `Leases.OperationOutlivesBinding` is such a run.
* A reflective select that takes its default never gives the bytes of its selection back
  (`runtime/reflect_select.go:70-93`); the select statement does. `SelectExchange.Exchange.ReflectSelect` gives the
  condition; `SelectExchange.ReflectDefaultLeaks` grows the charge without bound.

## Left out

Weaker than the code:

- Collector.ManagedHeap.CopyNursery: does not count copied, promoted and young bytes, because nothing but statistics and the pace of collections depends on them.
- Marking.MajorMarksReachable: speaks about marks and traced entries as values; the loop over the queue is `Collector.ManagedHeap.DrainQueue`.
- Collector.ManagedHeap.Collect: the wall-clock times, the callbacks for types and layouts and the choice between minor and major are not modelled; the kind of collection is a parameter.
- Collector.ManagedHeap.DropDead: frees the dead entries before it closes the from-space, where the source closes it first; the two loops touch different fields.
- Collector.ManagedHeap.SweepOld: the workers of the partition take their chunks one after the other; the chunks are disjoint.
- Collector.ManagedHeap.PublishYoung: slot, page and layout are parameters; which nursery page is chosen is left out.
- Collector.ManagedHeap.PublishLarge: the page is a parameter, a free directory page or a new one; the source always takes the last free one.
- Collector.ManagedHeap.constructor: starts with a fixed number of free slots and one nursery page with its spare; growth of the directory is in `Allocation`.
- Collector.ManagedHeap.FlushCards: only the cards of a flush; its slots and bytes are in `Allocation.Ledger.Flush`. The same holds for `GuestOpen` and `GuestFlush`.
- Collector.ManagedHeap.CollectMinor: requires addressable cards; without them it is false, see the first finding.
- Marking.MinorMarksReachable: speaks about marks and traced entries as values; `Collector.ManagedHeap.MarkMinor` is the code that gets there.
- Collector.ManagedHeap.GuestWrite: requires that the written bytes hold only references the guest holds; the interpreter that guarantees it is not part of this model.
- Session.RunScript: large payloads of a script end, with one more stride and card, below 4 GiB. Entries that a worker has committed join the collector's heap when they are published on the owner's side; the ledger of `Allocation` follows them before that.
- Allocation.Ledger.AcquireBatch: page selection, promotion pages and resident memory are one parameter that says whether they are admitted; a closed heap, which refuses everything, is left out.
- Layouts.Build: logical bytes, offsets of types and fingerprints are left out; stride, references and dynamic values are what the collector traces.
- Values.ValidateValues: the grammar of type names is a parameter of the rules.
- CanonicalForm.RoundTrip: the validity of UTF-8 text is a predicate of the model that is not unfolded into code points.
- ValueCodec.MapOrderIrrelevant: requires distinct encoded keys, because the source sorts with an unstable sort and the order of equal keys is open.
- LinkWorklist.Reachability.Run: signature text is a function of the table; cancellation of the context is left out.
- LinkOrder.Link: the archive format and its hash are left out; a hash is available or not.
- Fragments.StreamDelivers: the contents of frames are parameters, a re-encoded timeout included; the receiver has limits at least as large as the sender.
- SelectExchange.Exchange.TryCommit: the random choice among ready cases is a parameter.
- HostCall.Machine.Materialize: whether the values can be published is a parameter.
- TwoPhase.DecisionAppliedOnce: the callbacks of the owner are steps that succeed or fail; their effects are in `Resources`.

Not modelled:

- Parsing, type checking, lowering and the interpreter itself.
- The page allocator and resident-memory accounting.
- Registration and reclamation of layouts and prepared types.
- Snapshot, debugger, tooling and command line.
- Connection set-up, handshake and authentication of the remote endpoint, and the encoding of lease targets.
- Remote route sets that forward calls, other than the leases of their bindings.
- Timers and clocks beyond a number that only grows.
- Poisoned bytes of freed storage, which nothing reads.
