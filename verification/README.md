# Verified models of the ipa.c core

ipa.c is an island parser: it splits a text into token windows, embeds each window with a small
transformer that runs on ggml, looks the vector up in an HNSW index and reports matches with the
emits of a compiled schema. This project models the algorithms under that pipeline and proves what
they promise, for all inputs and all runs.

`dafny verify dfyconfig.toml` verifies everything.

| files | what they model |
|---|---|
| `Alignment`, `FreeSpace`, `DynTallocr`, `Buffers` | the free-list allocator of `ggml-alloc.c`, per chunk, per allocator, per buffer type |
| `AllocatorRuns` | two runs of the allocator that end where its comments and its table do not |
| `TensorGraph`, `RefCounts`, `PlannerState`, `PlannerSteps`, `PlanBudget`, `PlanOutcome`, `GraphPlanner` | the planner that walks a graph, counts readers and views, reuses and frees memory; when it cannot fail, and what it leaves |
| `PlannedRun` | running a graph in planned memory, against a run in which every tensor has memory of its own |
| `PlanReuse` | keeping a plan for a later graph |
| `Scores`, `ScoreHeap`, `LevelSearch`, `NeighborLists`, `BestFirst`, `Ranking`, `Descent`, `HnswBuild`, `HnswIndex` | the HNSW index |
| `Bits`, `AllReduce` | the butterfly all-reduce of the meta backend |
| `SchedGraph`, `SchedSplit`, `SplitRun` | cutting a graph into splits, one backend each |
| `ClosedSpans`, `Tokens`, `Traversal`, `IslandScan` | the window traversal and the island scan |
| `Probing`, `Bitset`, `TensorSet`, `Vocabulary`, `WordPiece` | open addressing, the vocabulary, the tokenizer |
| `EmbedProtocol`, `EmbedProgress` | callers and the worker thread of the embedding front end |
| `SchemaBytes`, `SchemaLayout`, `SchemaCompile`, `SchemaOpen`, `SchemaReopen` | the schema compiler and the file it writes |
| `Wrappers`, `Sets` | shared helpers |

## Main results

* **Planner.** `GraphPlanner.Gallocr.AllocGraph` delivers a safe plan for every well-formed graph, without
  fail while the aligned sizes of each buffer type sum to at most half the address space, at most 254 tensors
  are placed in it and no tensor outgrows a source it may replace (`PlanBudget.Room`). A node sits where the first
  source it may replace is, everything else in the buffer it was given (`PlanOutcome.Sited`), and in the end only
  outputs, unread tensors and tensors with an unread view hold memory (`PlanOutcome.OnlyKept`). And
  `PlannedRun.PlannedRunIsFaithful` shows what safety is for: in planned memory every node reads the
  values it would read if nothing ever shared memory, and outputs survive to the end. Underneath, each
  chunk's free list is the only sorted list of non-touching blocks that tiles the chunk together with
  the live ranges (`FreeListIsCanonical`).
* **Plan reuse.** A kept plan is safe for a graph of the same shape and in-place pairs
  (`PlacingIsSafe`); the test that keeps it misses exactly the leafs no node reads (`KeptRecordFitsIff`);
  for a graph of the same shape it is safe if and only if those leafs, where they outgrew their places, and
  the in-place pairs pass their checks (`KeptRecordSafeIff`).
* **HNSW.** A level search returns the `ef` best of the nodes it visited, all reachable, and everything
  when at most `ef` nodes are reachable; the descent ends at local optima; an insertion joins the node, on every
  level in use, with the 16 best of what a search from the best node of the level above found, both ways; so no
  node is without neighbours and all hang together by what was offered; a failed build changes nothing; a search
  over at most 1024 items is exact.
* **All-reduce.** For every number of backends all of them end with the same value if addition commutes,
  and with the sum if it also associates, within the pools; a scratch buffer is filled at most once in a
  call if and only if there is at most one backend more than a power of two (`FilledOnceIff`).
* **Scheduler split.** Splits tile the nodes, copies are listed once, and running the splits computes the
  values of the original order, whatever the operations compute, if and only if nothing behind an input of a
  split is computed in that split or later (`AgreesIffReady`).
* **Traversal.** The pruned span list with its binary search answers the same question as the set of all
  closed spans. The matches of a scan are exactly the windows that match and lie inside no other window that does.
* **Tables and tokenizer.** Probing terminates and finds the smallest index; the tokens are the longest
  fitting prefix of the greedy segmentation: pieces that cover all bytes but blanks, each the longest that is a
  token, marked before bare.
* **Protocol.** In every interleaving of any number of callers each request runs once, in order, on its
  own text and buffer, before its caller returns; and from every reachable state some run brings the caller back.
* **Schema file.** A compiled schema opens again if and only if its described children have ids, and then
  says what the manifest says: names, threshold, window sizes, descriptions with their vectors, emits, children.

## Where code and text disagree

* A comment in `lib/ggml/src/ggml-alloc.c:210` says the best fitting block "within any chunk" is taken.
  The running minimum starts anew for every chunk, so the last chunk with a fit wins. The comment holds if and only
  if that chunk has a fit as small as any: `DynTallocr.BestFitIff`. `AllocatorRuns.LaterChunkWins` is a run in which
  it does not.
* `lib/ggml/include/ggml-alloc.h:68-72` promises a new plan when the topology changes. Only counts and sizes are
  compared: `PlanReuse.ChangedShapeGoesUnnoticed`.
* `ggml_gallocr_node_needs_realloc` answers true when the slot is large enough; the model follows the code.
* Leafs are not looked at by the test, so a larger leaf that no node reads is placed over its neighbour:
  `PlanReuse.UnreadLeafCanOverlap`. The exact conditions are `PlanReuse.KeptRecordFitsIff` and `PlanReuse.KeptRecordSafeIff`.
* Three branches cannot be reached, and the proofs say so with `assert false` or by leaving the case out: reuse of a
  view's memory (`lib/ggml/src/ggml-alloc.c:657-669`), merging with the block before the one extended downwards
  (`lib/ggml/src/ggml-alloc.c:339`) and the third containment test in `kc_ngram_add_closed_span`.
* `ggml_dyn_tallocr_remove_block` reads one slot past the table if and only if all 256 are in use
  (`DynTallocr.Chunk.RemoveBlock`). At most 254 live ranges in the chunk exclude it (`DynTallocr.RemovalStaysInside`);
  `AllocatorRuns.ReadsPastTable` is a run that gets there.
* A view assigned to another backend than its root is copied before the root is computed when both fall into one split:
  `SplitRun.StrayViewIsCopiedTooEarly`; `SplitRun.AgreesIffReady` says exactly when copies are taken too early.
* The all-reduce has a scratch buffer for each step, but all excess backends after the first are folded in through the
  buffer of the first butterfly round, which is then filled again: `AllReduce.FilledOnceIff`.

## Model

| member | source | states |
|---|---|---|
| `FreeSpace.TilesInitially` | lib/ggml/src/ggml-alloc.c:159-177 | a new chunk, one free block, is tiled |
| `FreeSpace.TakeKeepsTiling` | lib/ggml/src/ggml-alloc.c:260-268 | cutting a range off a free block keeps the chunk tiled by sorted, non-touching free blocks and live ranges; the range is apart from all live ones |
| `FreeSpace.SpliceKeepsTiling` | lib/ggml/src/ggml-alloc.c:311-349 | replacing the blocks a released range touches by their union keeps the tiling |
| `FreeSpace.FreeListIsCanonical` | lib/ggml/src/ggml-alloc.c:134-157 | live ranges determine the free list: two lists that tile a chunk with the same live ranges are equal |
| `FreeSpace.FreeBlocksBounded` | lib/ggml/src/ggml-alloc.c:134-149 | there is at most one more free block than there are live ranges |
| `FreeSpace.TailBlock` | lib/ggml/src/ggml-alloc.c:233-252 | everything above the high-water mark is free, in the last block |
| `DynTallocr.Chunk.InsertBlock` | lib/ggml/src/ggml-alloc.c:134-149 | the list gets the block at its sorted place; refused exactly when 256 blocks are in use |
| `DynTallocr.Chunk.ShiftUp` | lib/ggml/src/ggml-alloc.c:141-145 | later blocks move up by one, earlier ones stay |
| `DynTallocr.Chunk.RemoveBlock` | lib/ggml/src/ggml-alloc.c:151-157 | exactly the block at the index leaves the list; the largest index read is the number of blocks, so slot 256 is read exactly when 256 blocks are in use |
| `DynTallocr.RemovalStaysInside` | lib/ggml/src/ggml-alloc.c:151-157 | with at most 254 live ranges in the chunk fewer than 256 blocks are in use, so no removal reads past the table |
| `AllocatorRuns.FillTable` | lib/ggml/src/ggml-alloc.c:311-349 | 511 allocations and 256 releases fill the table |
| `AllocatorRuns.ReadsPastTable` | lib/ggml/src/ggml-alloc.c:151-157 | cutting the next range from the block the allocator then chooses reads slot 256 |
| `DynTallocr.Chunk.TakeFrom` | lib/ggml/src/ggml-alloc.c:260-303 | the chunk loses the bytes from the front of the block; list, live ranges and high-water mark follow |
| `DynTallocr.Chunk.AddFree` | lib/ggml/src/ggml-alloc.c:311-349 | the free list becomes the merged list, or the table is full |
| `DynTallocr.Chunk.MergeBelow` | lib/ggml/src/ggml-alloc.c:319-331 | extending a block upwards, and joining the next one if they now touch |
| `DynTallocr.Chunk.MergeAbove` | lib/ggml/src/ggml-alloc.c:332-345 | extending a block downwards; the join with the block before it is shown unreachable |
| `DynTallocr.FreedKeepsTiling` | lib/ggml/src/ggml-alloc.c:311-349 | releasing a live range or its tail keeps the tiling, and touches at most the two neighbours |
| `DynTallocr.Allocator.FindInner` | lib/ggml/src/ggml-alloc.c:208-231 | the inner block taken is the smallest fit of the last chunk that has one; none found means that none fits |
| `DynTallocr.Allocator.FindTail` | lib/ggml/src/ggml-alloc.c:233-252 | among fitting last blocks the choice needs least growth, then leaves least slack, and is the first of equals |
| `DynTallocr.BestFitIff` | lib/ggml/src/ggml-alloc.c:208-231 | the block taken is a smallest inner fit of all chunks if and only if the last chunk with a fit has a smallest one |
| `AllocatorRuns.SmallGapIsMissed` | lib/ggml/src/ggml-alloc.c:208-231 | a state in which it has none |
| `AllocatorRuns.LaterChunkWins` | lib/ggml/src/ggml-alloc.c:201-303 | nine calls on a new allocator: the last takes 32 bytes of a 64-byte block although an earlier chunk has a block of exactly 32 |
| `DynTallocr.Allocator.Alloc` | lib/ggml/src/ggml-alloc.c:201-303 | allocates in the chosen block, opens a chunk only when nothing fits, fails only with 16 chunks and nothing fitting, never while the bytes asked for stay below half the address space |
| `DynTallocr.AllocatedIsApart` | lib/ggml/src/ggml-alloc.c:201-303 | an allocation adds one live range, aligned, below the high-water mark and apart from every other |
| `DynTallocr.LastChunkNeverFull` | lib/ggml/src/ggml-alloc.c:159-177 | the abort is out of reach while aligned sizes sum to at most SIZE_MAX / 2 |
| `DynTallocr.Allocator.FreeBytes` | lib/ggml/src/ggml-alloc.c:311-349 | exactly the released range leaves or shrinks; the table cannot overflow with at most 254 live ranges in the chunk |
| `DynTallocr.ReturnedRanges` | lib/ggml/src/ggml-alloc.c:311-349 | releasing keeps every chunk tiled and every other live range |
| `DynTallocr.Allocator.Reset` | lib/ggml/src/ggml-alloc.c:351-363 | no chunks, nothing live, nothing requested |
| `Buffers.MakeAllocators` | lib/ggml/src/ggml-alloc.c:497-531 | buffer ids share an allocator exactly when they have the same type |
| `Buffers.BufferSet.Alloc` | lib/ggml/src/ggml-alloc.c:679-686 | one more live range of the buffer's type, apart from the others; other types unchanged; succeeds while the bytes asked of that type since the last reset stay below half the address space |
| `Buffers.BufferSet.FreeBytes` | lib/ggml/src/ggml-alloc.c:599-620 | the range loses its tail, nothing else changes; succeeds while at most 254 ranges were asked of that type |
| `PlannedRun.StepAgrees` | lib/ggml/src/ggml-alloc.c:763-821 | one node run under a safe plan leaves every value that is still needed as it would be with private memory |
| `PlannedRun.RunAgrees` | lib/ggml/src/ggml-alloc.c:717-822 | so does every prefix of the graph |
| `PlannedRun.PlannedRunIsFaithful` | lib/ggml/src/ggml-alloc.c:622-822 | whole runs: each source or its view root holds its value when read, and non-view outputs keep theirs |
| `PlannedRun.LoadingWorks` | lib/ggml/src/ggml-alloc.c:722-760 | under a safe plan any contents of leafs and inputs can be held together |
| `PlannedRun.LoadedRunIsFaithful` | lib/ggml/src/ggml-alloc.c:622-822 | from any contents of memory: load, run, and all reads and outputs are those of a run without shared memory |
| `RefCounts.NeededIsKept` | lib/ggml/src/ggml-alloc.c:729-760 | what a later step needs has readers left or views in use |
| `RefCounts.ViewsNext` | lib/ggml/src/ggml-alloc.c:793-820 | giving up a source ends the use of a view exactly when it was its last read |
| `PlannerState.FreshKeeps` | lib/ggml/src/ggml-alloc.c:675-686 | giving a tensor a new range keeps all holders apart |
| `PlannerState.TakeOverKeeps` | lib/ggml/src/ggml-alloc.c:632-673 | taking a parent's range over keeps all holders apart |
| `PlannerState.FreeKeeps` | lib/ggml/src/ggml-alloc.c:690-711 | giving a range back keeps the others |
| `PlannerSteps.ReusedIsDone` | lib/ggml/src/ggml-alloc.c:640-656 | a parent whose memory is reused is read by nobody else, now or later |
| `PlannerSteps.NewStepIsSafe` | lib/ggml/src/ggml-alloc.c:763-777 | the new node's memory overlaps nothing that is needed later, and a source only when it runs in place |
| `PlannerSteps.SafeSoFar` | lib/ggml/src/ggml-alloc.c:763-777 | earlier steps stay safe |
| `PlannerSteps.DropKeeps` | lib/ggml/src/ggml-alloc.c:793-808 | counting a source down keeps reader and view counts exact |
| `PlannerSteps.FreeIsSafe` | lib/ggml/src/ggml-alloc.c:804-818 | a tensor without readers and views may be freed |
| `PlannerSteps.CountingDone` | lib/ggml/src/ggml-alloc.c:729-760 | after the first pass all counts are the true ones |
| `PlannerSteps.PlanDone` | lib/ggml/src/ggml-alloc.c:763-822 | after the last node the whole plan is safe |
| `GraphPlanner.Gallocr.AllocateNode` | lib/ggml/src/ggml-alloc.c:622-688 | a tensor is skipped, takes over the first reusable parent, or gets a fresh range when there is none; the bookkeeping stays consistent; only a fresh range costs anything, and each way succeeds when there is room |
| `GraphPlanner.Gallocr.FindParent` | lib/ggml/src/ggml-alloc.c:632-673 | finds the first reusable parent or shows that there is none |
| `GraphPlanner.Gallocr.Reuse` | lib/ggml/src/ggml-alloc.c:599-673 | the parent's range passes to the node and its aligned tail is freed |
| `GraphPlanner.Gallocr.FreeNode` | lib/ggml/src/ggml-alloc.c:690-711 | outputs stay; any other range is returned whole |
| `GraphPlanner.Gallocr.CountNodeStep` | lib/ggml/src/ggml-alloc.c:731-760 | one node of the counting pass; costs at most the node if it is an input, and succeeds if that can be paid |
| `GraphPlanner.Gallocr.VisitNode` | lib/ggml/src/ggml-alloc.c:763-821 | one node of the planning pass keeps the safe prefix and the exact counts; the node is put where it belongs, and of the sources given up only those still needed keep memory; costs at most the node if it is no input, and succeeds if that can be paid |
| `GraphPlanner.Gallocr.AllocGraph` | lib/ggml/src/ggml-alloc.c:717-822 | the plan of every well-formed graph is safe and every tensor lies below its chunk's high-water mark; each node is in place of the first source it may replace, and otherwise it, and each leaf, is in the buffer its list of ids gives, or buffer 0; in the end memory is held only by outputs, by tensors nobody reads and by those with a view nobody reads; planning succeeds whenever `PlanBudget.Room` holds: per buffer type, aligned sizes sum to at most SIZE_MAX / 2 and at most 254 tensors are placed, and no tensor is larger than a source it may run in place of |
| `GraphPlanner.GivenUp` | lib/ggml/src/ggml-alloc.c:793-820 | after a source is given up its root holds memory only if it is an output, has readers left or a view in use |
| `PlanOutcome.TidyDropped` | lib/ggml/src/ggml-alloc.c:793-820 | giving up a source keeps the rule for everything else |
| `PlanOutcome.TidyEnd` | lib/ggml/src/ggml-alloc.c:763-822 | after the last node: who still holds memory |
| `PlanOutcome.ReusableIff` | lib/ggml/src/ggml-alloc.c:632-656 | counters and owners let a node reuse a source exactly when the graph does: planned, same layout, no output, no other reader from here on, no view in use |
| `PlanOutcome.SitedServed` | lib/ggml/src/ggml-alloc.c:622-688 | serving a node puts it in place of the first source it may replace, or into its buffer, and moves nothing else |
| `PlanOutcome.LeafServed` | lib/ggml/src/ggml-alloc.c:722-727 | a leaf is in the buffer it was given where it is first listed |
| `PlanOutcome.InputServed` | lib/ggml/src/ggml-alloc.c:743-745 | an input among the nodes is in its own buffer |
| `PlanBudget.BillSplits` | lib/ggml/src/ggml-alloc.c:729-777 | the two passes together serve every node that needs memory once |
| `PlanBudget.StepIsBilled` | lib/ggml/src/ggml-alloc.c:729-777 | one step of a pass stays within the bill of the graph and succeeds if the whole bill can be paid |
| `PlanReuse.MakeRecord` | lib/ggml/src/ggml-alloc.c:849-901 | the record holds each node's and source's slot with its size |
| `PlanReuse.NeedsRealloc` | lib/ggml/src/ggml-alloc.c:996-1049 | false exactly when counts agree and every node and source fits its recorded slot |
| `PlanReuse.KeptRecordFitsIff` | lib/ggml/src/ggml-alloc.c:1008-1049 | when the record is kept, all tensors fit if and only if the leafs that no node reads do |
| `PlanReuse.KeptSafeIff` | lib/ggml/src/ggml-alloc.c:1008-1097 | a plan kept for a graph of the same shape is safe if and only if the tensors that outgrew their places harm and suffer nothing, and the pairs that ran in place still may or no longer meet |
| `PlanReuse.KeptRecordSafeIff` | lib/ggml/src/ggml-alloc.c:1008-1097 | the same for a record the test keeps; only leafs that no node reads can have outgrown their places |
| `PlanReuse.SmallerGraphIsSafe` | lib/ggml/src/ggml-alloc.c:1008-1097 | a safe plan stays safe for a graph of the same shape and in-place pairs with tensors that fit |
| `PlanReuse.ReuseIsSafe` | lib/ggml/src/ggml-alloc.c:1051-1097 | such a graph is safe at the recorded addresses, inside the chunk buffers |
| `PlanReuse.PlacingIsSafe` | lib/ggml/src/ggml-alloc.c:1051-1097 | both ways to a placement, kept and new, are safe and inside the buffers |
| `PlanReuse.UnreadLeafCanOverlap` | lib/ggml/src/ggml-alloc.c:1008-1049 | a larger unread leaf passes the test and overlaps |
| `PlanReuse.ChangedShapeGoesUnnoticed` | lib/ggml/src/ggml-alloc.c:1008-1049 | with the plan of a chain, safe for it, a chain of another topology passes the test and one of its steps is unsafe |
| `PlanReuse.GraphAllocator.Reserve` | lib/ggml/src/ggml-alloc.c:824-948 | plan, record and buffers belong to the graph, each buffer backs its pool, and the plan is as `AllocGraph` leaves it; succeeds when the graph has room in empty pools and the buffers are granted |
| `PlanReuse.GraphAllocator.GrowBuffers` | lib/ggml/src/ggml-alloc.c:903-945 | every buffer id has a buffer with room for each chunk, ids of one type the same one; fails only when a buffer is not granted |
| `PlanReuse.InitTensors` | lib/ggml/src/ggml-alloc.c:969-994 | every tensor of the graph that needs an address gets its recorded one |
| `PlanReuse.GraphAllocator.AllocGraph` | lib/ggml/src/ggml-alloc.c:1051-1097 | the record is used exactly when the test allows it; for compatible graphs the placement is safe, complete and inside the buffers; for graphs of the planned shape a kept record is safe exactly when the checks of `KeptOk` pass |
| `ScoreHeap.RootFirst` | lib/libhnsw.c:872-875 | nothing in a heap has priority over its root |
| `ScoreHeap.SiftUpOk` | lib/libhnsw.c:884-901 | sifting a new element up restores heap order and keeps the contents |
| `ScoreHeap.SiftDownOk` | lib/libhnsw.c:911-925 | sifting the last element down restores heap order and keeps the contents |
| `ScoreHeap.Heap.Push` | lib/libhnsw.c:884-901 | the heap holds one more element, growing when full |
| `ScoreHeap.Heap.Pop` | lib/libhnsw.c:911-925 | removes and returns an element nothing has priority over |
| `LevelSearch.Searcher.Look` | lib/libhnsw.c:676-697 | looking at a neighbour keeps the results the `ef` best of the visited nodes |
| `LevelSearch.Searcher.Step` | lib/libhnsw.c:668-698 | a round expands a best candidate, or stops with a finished result, which it does exactly when the results are full and that candidate is worse than all of them |
| `LevelSearch.Searcher.Run` | lib/libhnsw.c:668-698 | the loop ends, with the `ef` best of the visited nodes, all reachable, and all neighbours of results visited |
| `LevelSearch.SearchLevel` | lib/libhnsw.c:647-701 | the same for a whole call: the heap holds exactly the nodes found, with their scores |
| `LevelSearch.SmallIsComplete` | lib/libhnsw.c:647-701 | with at most `ef` reachable nodes the result is exactly the reachable set |
| `LevelSearch.FoundIsLocalOptimum` | lib/libhnsw.c:647-701 | no neighbour of a result that was left out beats any result |
| `NeighborLists.WorstOf` | lib/libhnsw.c:729-741 | finds a worst element |
| `NeighborLists.Offer` | lib/libhnsw.c:711-748 | the list keeps the best of everything ever offered, without duplicates and within its limit |
| `BestFirst.SortBestFirst` | lib/libhnsw.c:604-612 | sorted best first, a permutation |
| `Ranking.PrefixIsTop` | lib/libhnsw.c:614-630 | the first `limit` of a ranking are the best `limit` of its nodes |
| `Descent.Walk` | lib/libhnsw.c:563-577 | the walk on a level ends at a node with no better neighbour, not worse than its start |
| `Descent.Descend` | lib/libhnsw.c:402-418 | through the levels: only levels the current node has, local optimum on the last, never worse than the entry |
| `HnswBuild.LinkedList` | lib/libhnsw.c:344-512 | the invariant for one list: inserted nodes of that level, no self-loop, no duplicate, at most 32 on level 0 and 16 above, best of all offers |
| `HnswBuild.WithListLinked` | lib/libhnsw.c:711-748 | adding an edge keeps the invariant of the whole graph |
| `HnswBuild.PlacedLinked` | lib/libhnsw.c:381-391 | a new node with empty lists keeps it |
| `HnswBuild.SearchAvoids` | lib/libhnsw.c:421-433 | the search for a new node's neighbours cannot find the node itself |
| `HnswBuild.Builder.AddEdge` | lib/libhnsw.c:711-748 | only that list changes, the invariant stays, and out of memory changes nothing; it succeeds when memory is given |
| `HnswBuild.Builder.Connect` | lib/libhnsw.c:420-479 | the new node's list on a level is the 16 best of what a search with room for 64 found there, not empty; exactly these nodes and the new one were offered to each other; the next search starts at the best node found |
| `HnswBuild.Builder.Insert` | lib/libhnsw.c:379-485 | on every level up to the lower of its own and the top one the node is connected as `Connect` says, starting where the walk from the entry point ended; lists of other levels and all other offers stay; the invariant stays and the entry point is on the top level, and moves to the new node exactly when that is above the top |
| `HnswBuild.Builder.Shuffle` | lib/libhnsw.c:369-374 | the order that the draws give, a permutation |
| `HnswBuild.AnyOrderCanCome` | lib/libhnsw.c:369-374 | for every order of the items there are draws after which the shuffle gives it |
| `HnswBuild.RandomLevel` | lib/libhnsw.c:778-786 | one level for each draw below one tenth before the first other one, at most 16 |
| `HnswBuild.Builder.Run` | lib/libhnsw.c:369-485 | a finished build has all items, in the order shuffled, on the levels drawn, under the invariant; it succeeds when memory is given; offers went both ways, and every node was joined to an earlier one on each level that had one |
| `HnswBuild.KnitNext` | lib/libhnsw.c:420-479 | an insertion keeps offers symmetric and attaches the new node on each level that had a node |
| `HnswBuild.NoneAlone` | lib/libhnsw.c:344-512 | in a finished graph of two nodes or more every node has a neighbour on level 0 |
| `HnswBuild.ChainToFirst` | lib/libhnsw.c:344-512 | every node hangs together with the first one by offers that went both ways |
| `HnswIndex.Index.Add` | lib/libhnsw.c:291-337 | one more item, and the index needs a build; an empty id or, after that, no memory changes nothing, and nothing else fails |
| `HnswIndex.Index.Build` | lib/libhnsw.c:344-512 | built from all items ever added, in the order shuffled and on the levels drawn, or unchanged; it succeeds when memory is given |
| `HnswIndex.Index.Search` | lib/libhnsw.c:523-634 | the state error exactly while something was added since the last build; hits are the `limit` best candidates, distinct items, true scores, best first, at most the threshold for L2 and at least it otherwise; candidates are all items when there are at most 1024, or at most the larger of ef_search, limit and 64, and those of the graph search with that room otherwise |
| `HnswIndex.Index.Explore` | lib/libhnsw.c:556-601 | candidates of the graph search from a node not worse than the entry point |
| `HnswIndex.NoWorseThanEntry` | lib/libhnsw.c:523-634 | the best hit is at least as good as the entry point, if that passes |
| `HnswIndex.ExactWhenSmall` | lib/libhnsw.c:540-555 | an item that passes and is no hit finds the answer full of hits no worse than it |
| `Bits.PowerTest` | lib/ggml/src/ggml-backend-meta.cpp:1956-1960 | `x & (x - 1)` is zero exactly for powers of two |
| `Bits.PartnerBack` | lib/ggml/src/ggml-backend-meta.cpp:1976-1984 | partners find each other, in opposite halves of their block |
| `AllReduce.HalfPower` | lib/ggml/src/ggml-backend-meta.cpp:1956-1961 | the largest power of two not above half of the backends |
| `AllReduce.RoundHalves` | lib/ggml/src/ggml-backend-meta.cpp:1976-1998 | after a round the values repeat half as long a sequence; only commutativity is needed |
| `AllReduce.FoldInSum` | lib/ggml/src/ggml-backend-meta.cpp:1964-1973 | folding the excess in keeps the sum |
| `AllReduce.ReducedIsSum` | lib/ggml/src/ggml-backend-meta.cpp:1926-2011 | all results are equal if addition commutes, and the sum if it also associates |
| `AllReduce.CallFits` | lib/ggml/src/ggml-backend-meta.cpp:1822-1847 | one call needs at most 3n and 2n times ceil(log2 n) auxiliary nodes and graphs |
| `AllReduce.Reducer.PushData` | lib/ggml/src/ggml-backend-meta.cpp:1926-1953 | copies into a scratch buffer of the target and prepares the addition that reads it; the slot was free |
| `AllReduce.Reducer.Exchange` | lib/ggml/src/ggml-backend-meta.cpp:1976-1998 | all copies before any addition: the round as a function of the values; no destination twice |
| `AllReduce.Reducer.Fold` | lib/ggml/src/ggml-backend-meta.cpp:1963-1973 | the excess backends are added in, the first through buffer 0 and the others through buffer 1 |
| `AllReduce.FilledOnceIff` | lib/ggml/src/ggml-backend-meta.cpp:1963-1998 | no scratch buffer is filled twice in a call if and only if at most one backend is in excess of a power of two |
| `AllReduce.Reducer.Run` | lib/ggml/src/ggml-backend-meta.cpp:1899-2011 | the whole call delivers the reduction through the scratch buffers, uses ceil(log2 n) buffer steps, stays in the pools and fills each scratch buffer as often as `Fills` says |
| `AllReduce.ReduceAll` | lib/ggml/src/ggml-backend-meta.cpp:2014-2043 | pools sized for the subgraphs serve a whole computation |
| `SchedSplit.Splitter.NeedsNewSplit` | lib/ggml/src/ggml-backend.cpp:1270-1303 | a split with inputs ends before a foreign weight, or a new input when it is full |
| `SchedSplit.Splitter.Import` | lib/ggml/src/ggml-backend.cpp:1353-1372 | afterwards the copy is listed in this or an earlier split of the backend, or the split lists one input too many, this one |
| `SchedSplit.Splitter.Source` | lib/ggml/src/ggml-backend.cpp:1323-1373 | a source is read in place or from its listed copy, as its location demands |
| `SchedSplit.Splitter.Visit` | lib/ggml/src/ggml-backend.cpp:1262-1374 | one node keeps everything settled so far, with a new split exactly where one is needed |
| `SchedSplit.Splitter.Run` | lib/ggml/src/ggml-backend.cpp:1245-1376 | non-empty splits tile the nodes; nodes are on their split's backend; a source is read in place exactly when it is on the node's backend or in memory that backend can read; each copy is listed once, for somebody in the split; a node that reads a foreign weight is the first of its split to read an input; with pipeline copies every input read is a graph input, once; on overflow some source of some node is input 31 of the graph, or of the open split on that node's backend, whose inputs 30 and 31 that node brought |
| `SchedSplit.SupportedIff` | lib/ggml/src/ggml-backend.cpp:985-1004 | the support test asks whether the backend can read the type of the memory behind the tensor: its holder's buffer, or the backend it or its root is assigned to |
| `SchedSplit.WeighedNext` | lib/ggml/src/ggml-backend.cpp:1270-1303 | a node joins a split with inputs only if it reads no foreign weight |
| `SplitRun.InputReady` | lib/ggml/src/ggml-backend.cpp:1353-1370 | an input that is on its root's backend is computed before the split starts |
| `SplitRun.ViewsWithRootsAreReady` | lib/ggml/src/ggml-backend.cpp:1245-1376 | when every view is on its root's backend all inputs of all splits are ready |
| `SplitRun.SourcesAgree` | lib/ggml/src/ggml-backend.cpp:1245-1376 | every node reads the values of the original order |
| `SplitRun.SplittingPreservesValues` | lib/ggml/src/ggml-backend.cpp:1245-1376 | when all inputs are ready, running the splits after their copies leaves every tensor with the value of the original order, whatever the operations compute |
| `SplitRun.UnreadyIsSeen` | lib/ggml/src/ggml-backend.cpp:1353-1370 | when some input is not ready, some operations give a different result |
| `SplitRun.AgreesIffReady` | lib/ggml/src/ggml-backend.cpp:1245-1376 | splits and original order agree for all operations and all starting values if and only if all inputs are ready |
| `SplitRun.StrayViewIsCopiedTooEarly` | lib/ggml/src/ggml-backend.cpp:1353-1370 | a graph in which a view on another backend than its root is copied before the root is computed |
| `ClosedSpans.SpanList.InsertIndex` | lib/libngram.c:188-213 | the first span that does not start before the given one |
| `ClosedSpans.SpanList.IsClosed` | lib/libngram.c:221-255 | true exactly when some span ever closed contains the given one |
| `ClosedSpans.SpanList.Add` | lib/libngram.c:304-376 | the list stays strictly increasing in both ends and stands for one more closed span |
| `Tokens.SplitTokens` | lib/libngram.c:128-180 | the tokens are the maximal runs of non-separators, in order |
| `Traversal.WindowsAre` | lib/libngram.c:447-460 | the windows of allowed sizes, each once, by falling size and rising start |
| `Traversal.VisitedAre` | lib/libngram.c:454-497 | visited are exactly the windows not inside one closed earlier, up to a failure |
| `Traversal.ClosedAre` | lib/libngram.c:472-495 | closed are exactly the visited windows answered with 1 |
| `Traversal.NoneNested` | lib/libngram.c:402-502 | no closed window lies inside another |
| `Traversal.Execute` | lib/libngram.c:402-502 | tokens, visited chunks and result of the whole call: chunks of allowed sizes (up to the token count when there is no maximum), each from the start of its first token to the end of its last, longest first, none inside one closed before; without a failure every other allowed window lies inside a closed one; a failure is the refusal of the next window |
| `Traversal.ScanTraverses` | lib/libngram.c:402-502 | the same of the specification |
| `Traversal.ExecuteNeverNests` | lib/libngram.c:402-502 | closed windows of a call never nest |
| `IslandScan.ScanTop` | src/libipa.c:1922-1950 | the matches are exactly the windows whose nearest entry is accepted and reaches the threshold and that lie inside no other such window, longest first; each reports the bytes of its window, the nearest entry and its score; the result is the number of windows visited, which are those inside no other matching window, or -1 for bad options |
| `IslandScan.VisitedAreUncovered` | src/libipa.c:1753-1829 | visited are the windows inside no other matching one, matching are the maximal ones |
| `IslandScan.MatchesDontNest` | src/libipa.c:1753-1829 | maximal windows do not nest |
| `IslandScan.RecordChild` | src/libipa.c:1796-1813 | replaces a weaker match of the same id, or appends |
| `IslandScan.BestPerId` | src/libipa.c:1796-1813 | children end with one match per id, a best one |
| `IslandScan.ChildrenAreFirst` | src/libipa.c:1796-1813 | of equally good matches the first is kept |
| `IslandScan.ChildrenInOrder` | src/libipa.c:1796-1813 | children come in the order in which their ids first matched |
| `IslandScan.ScanChildren` | src/libipa.c:1847-1908 | the children of a match: one best match per id among the maximal windows of its text, single tokens up to its size |
| `Bitset.SetGet` | lib/ggml/src/ggml-impl.h:209-215 | setting a bit sets that bit and no other |
| `TensorSet.OneSlot` | lib/ggml/src/ggml-impl.h:300-319 | a key has one slot |
| `TensorSet.HashSet.Reset` | lib/ggml/src/ggml-impl.h:239-240 | empty |
| `TensorSet.HashSet.Find` | lib/ggml/src/ggml-impl.h:259-273 | the key's slot, or a free slot when it is absent, or full |
| `TensorSet.HashSet.Contains` | lib/ggml/src/ggml-impl.h:275-278 | membership |
| `TensorSet.HashSet.Insert` | lib/ggml/src/ggml-impl.h:280-298 | a new key takes a free slot and no other slot changes; a known key changes nothing |
| `TensorSet.HashSet.FindOrInsert` | lib/ggml/src/ggml-impl.h:300-319 | the slot the key has or gets; the abort means a table full of other keys |
| `TensorSet.HandOut` | lib/ggml/src/ggml-impl.h:259-319 | a run of insertions goes through while distinct keys do not exceed the size; slots are equal exactly for equal keys, and every key keeps its slot |
| `Vocabulary.Lookup.Fill` | lib/libemb.c:213-231 | the table of 2n + 1 slots holds all words; probing ends |
| `Vocabulary.FirstMatch` | lib/libemb.c:270-284 | the first match on a word's way is its smallest number |
| `Vocabulary.NoMatch` | lib/libemb.c:270-284 | a free slot on the way means that the vocabulary lacks the word |
| `Vocabulary.Lookup.FindToken` | lib/libemb.c:270-284 | the smallest index holding the string, or -1 |
| `WordPiece.PiecesTileWord` | lib/libemb.c:540-608 | the pieces of a word tile it |
| `WordPiece.PiecesTileInput` | lib/libemb.c:532-608 | all pieces together are the text without its spaces |
| `WordPiece.PiecesAreGreedy` | lib/libemb.c:545-606 | each piece is the longest token at its place, the marked form before the bare one, by the smallest number of its string, letters folded to lower case; an unknown byte starts none |
| `WordPiece.PiecesSegment` | lib/libemb.c:532-608 | the pieces of all words, in order, cover exactly the bytes that are not blank |
| `WordPiece.TokensAre` | lib/libemb.c:522-611 | the tokens are the numbers of the first pieces of that segmentation between the end marks |
| `WordPiece.TokensFit` | lib/libemb.c:527-611 | 2 to n_ctx tokens with both end marks; without truncation all pieces |
| `WordPiece.Tokenizer.Longest` | lib/libemb.c:545-594 | the longest match at a place, marked before bare, or none |
| `WordPiece.Tokenizer.Tokenize` | lib/libemb.c:522-611 | the array holds the first end mark, the numbers of as many pieces of the segmentation as fit, and the last end mark |
| `EmbedProtocol.ClientKeeps` | lib/libemb.c:972-1010 | every step of every caller keeps the invariant |
| `EmbedProtocol.WorkerKeeps` | lib/libemb.c:765-789 | so does every step of the worker |
| `EmbedProtocol.RunsKeep` | lib/libemb.c:972-1010 | so does every run |
| `EmbedProtocol.RequestsRunOnce` | lib/libemb.c:765-789 | requests run in order, each once, on their own text and buffer; at most one is waiting |
| `EmbedProtocol.ServedBeforeReturn` | lib/libemb.c:995-1010 | a caller that leaves had its own request run, and its buffer holds the answer |
| `EmbedProtocol.CallsReturnedWereServed` | lib/libemb.c:995-1010 | every call that returned had run |
| `EmbedProgress.RunsStayLive` | lib/libemb.c:765-789 | in every reachable state an empty request slot after the first request means that the answer is there, unless somebody is about to say otherwise |
| `EmbedProgress.MutexCanBeFree` | lib/libemb.c:765-789 | whoever holds the mutex can go on until it is free |
| `EmbedProgress.EveryCallCanReturn` | lib/libemb.c:972-1010 | from every reachable state some run serves a published request and returns its caller |
| `EmbedProtocol.CodesAreOwn` | src/libipa.c:1922-1962 | callers behind the schema lock get the code of their own request |
| `SchemaBytes.ReadWord` | src/libipa.c:72-121 | a word written at its place is read back |
| `SchemaBytes.ReadStr` | src/libipa.c:233-252 | a string of the table is read back |
| `SchemaBytes.EntryAt` | src/libipa.c:298-303 | entry i of a section stands at i strides |
| `SchemaLayout.SectionsInPlace` | src/libipa.c:1067-1226 | header, string table and sections follow one another |
| `SchemaCompile.Compiler.AddString` | src/libipa.c:233-252 | the string is in the table where the reference says, as long as the table stays below 4 GiB |
| `SchemaCompile.Compiler.LabelPass` | src/libipa.c:940-967 | one reference per description, to its own id |
| `SchemaCompile.Compiler.MetaPass` | src/libipa.c:1004-1064 | one row per emit, or one without a key |
| `SchemaCompile.Compiler.Compile` | src/libipa.c:843-1235 | the file is the layout of an image that says what the manifest says; `HeaderSays` and `Reopened` say what is read from it |
| `SchemaOpen.BuildIndex` | src/libipa.c:1286-1318 | the entries of a section, or nothing exactly when one is out of bounds or has no id |
| `SchemaOpen.Open` | src/libipa.c:1477-1571 | succeeds exactly when all checks pass, with the header's values |
| `SchemaOpen.MatchEmits` | src/libipa.c:1615-1643 | the emits of the rows of that node, in order |
| `SchemaOpen.ChildEmits` | src/libipa.c:1860-1897 | the emits of the rows of that child of that parent |
| `SchemaOpen.HasChildren` | src/libipa.c:1652-1662 | true exactly when a row of that node says so |
| `SchemaReopen.CompiledTiles` | src/libipa.c:1067-1226 | below 4 GiB nothing is truncated, the sections tile the file and the header checks pass |
| `SchemaReopen.CompiledOpensIff` | src/libipa.c:1477-1571 | a compiled valid manifest opens if and only if every described child has an id |
| `SchemaReopen.HeaderSays` | src/libipa.c:1477-1571 | threshold and window sizes of the opened schema, and the strings its header refers to, are the manifest's |
| `SchemaReopen.IndexesSay` | src/libipa.c:1286-1318 | the indexes get each description's id and vector |
| `SchemaReopen.EmitsSurvive` | src/libipa.c:1601-1643 | emits looked up in the opened file are the manifest's keyed pairs, in order, with the matched text for the value "$raw" |
| `SchemaReopen.ParentsSurvive` | src/libipa.c:1652-1662 | a node has children in the file exactly when one of that id has some |
| `SchemaReopen.Reopened` | src/libipa.c:843-1643 | compile, open and look up, end to end: names, threshold, window sizes, descriptions with their vectors and the emits of a node are the manifest's |

## Left out

- Transformer arithmetic, tensor operations, model loading and quantization: numeric code; embeddings are a function of the text.
- Floating point: scores are reals; rounding and NaN are not modelled, so zeroing a disabled slice by multiplication is taken to give zero.
- 32- and 64-bit wrap-around beyond what the statements name: tensor sizes are naturals whose aligned size is at most half the address space; `limit` of a search is not truncated to `int`; a vocabulary is smaller than 2^30 words.
- Out-of-memory paths, except the build and add of the HNSW index, edge insertion and buffer allocation. A build with too little memory may fail at any request; which one is left open.
- I/O, mapping, signals, environment, command line and Windows branches: plumbing.
- The random generator of the HNSW build: its draws are parameters, and any are allowed.
- Zero-sized tensors, tensors with a buffer but no data, and tensors that are their own source.
- Scheduler passes 1 to 4 and the graph copy made after pass 5: the model starts with assigned backends, and an unassigned node or source is the abort.
- SchedSplit.Splitter.Run: does not say that the limit of 30 inputs cannot be hit; hitting it is an outcome of its own.
- Nodes that are no view operations but write into the memory of another tensor, in the run of splits: a node writes its own value.
- Asynchronous copies of the all-reduce: a copy reads its source, and fills its scratch buffer, when it is issued.
- Recall and connectivity of the HNSW graph: pruning drops directed edges, so neither is guaranteed; what is proved is that every node was joined to an earlier one.
- HnswIndex.Index.Search: does not model a failed allocation inside a search.
- Wake-up of several callers waiting on one embedding context, fairness, and closing the context: waiting may end at any time, and a call that can return need not.
- EmbedProtocol.CodesAreOwn: states nothing for callers without the schema lock, whose shared result may be another caller's.
- Parsing of the JSON manifest, and schema nodes below the second level: the compiler lays out nodes and their direct children.
- SchemaCompile.Compiler.Compile: does not model a failing embedding call.
- SchemaOpen.BuildIndex: compares offsets without the conversion to 32 bits; the two agree for files below 4 GiB whose sections are in bounds.
- Alignment of structs in the mapped file, and the byte order: words are little-endian on both sides.
