# STINGER: edge blocks, community engine and graph algorithms

A Dafny model of the parts of STINGER whose correctness is not visible in any single function: the
edge-block store and its concurrent insertion protocol, the checkpoint writer and loader, the
community engine (matching, relabelling, in-place contraction, incremental extraction), and the
graph algorithms that run on top of the store.

`dafny verify dfyconfig.toml` checks everything.

## What is modelled

**The store** (`EdgeBlocks`, `EdgeStore`, `ConsistencyCheck`, `SortedCsr`). Fixed-size blocks in one pool, chained
per source vertex and registered per edge type, with cached counts, high-water marks, stamp ranges
and degrees. The class `Stinger` has these as arrays that its methods update in place; `Valid` ties
them to a bijection `loc` between edges and live slots, and `Contents()` is the finite map
`(type, from, to) -> (weight, first stamp, recent stamp)` that callers think of. Every operation is
proved to be an update of that map. That every stamp range covers its block's edges is a statement of
its own, `RangesCover`, since negative stamps can break it: each operation says exactly when it holds
afterwards. The repository's own checker is modelled too, with the sorted CSR form that it searches:
what it reports is stated for any chains that end, and then when it reports nothing.

**Concurrent insertion** (`InsertProtocol`, `InsertInvariant`, `InsertSteps`, `InsertRuns`, `InsertMoves`,
`InsertFirsts`, `InsertTheorems`). Any
number of insert or increment calls on one source vertex and one type, each a program of atomic
steps on shared words, with the full/empty bits emulated by compare-and-swap. A schedule is any
sequence of thread numbers.

**Concurrent headers** (`StampProtocol`, `StampInvariant`, `StampCounts`, `StampDeadlock`, `StampRanges`,
`StampReports`, `StampTheorems`). The same calls with the rest of `update_edge_data`: the block's edge count, its stamp
range behind the lock on the lower stamp, and the in-degrees. Every run projects to a run of the insert
protocol; whether calls can wait for ever is decided for every quiet store.

**Checkpoints** (`CsrBuild`, `CsrRows`, `CsrBlocks`, `CsrLoad`, `CsrRoom`, `CsrRestore`). The writer's
counting sort of live slots into CSR arrays, and the loader that lays out, fills, chains and registers
blocks for them, on a store that may already hold other types; how many blocks that takes.

**Community graphs** (`Weights`, `Sorts`, `PrefixSum`, `Buckets`, `Contract`, `Contraction`,
`Matching`, `MatchLabels`, `Sizes`, `UpdateCommunity`). A weighted undirected graph is a diagonal and an
edge list; two of them are the same graph when all cells (the weight between two vertices in either
direction) agree, and `Quotient` says what contracting by a vertex map means. Contraction is the
in-place pipeline of relabelling, bucket sort, introsort of rows, collapse and copy back.

**Incremental communities** (`InsQueue`, `ExtractionCells`, `Movers`, `Extraction`, `CommunityState`). Touched
vertices are moved out of their communities by queueing signed weight changes, which are flushed
into the edge list whenever the queue is full, and the graph is contracted onto itself.

**Algorithms** (`ShortestPaths`, `Dependencies`, `Brandes`, `Betweenness`, `Triangles`, `Labels`,
`ComponentTrees`, `Components`, `SortActions`). Brandes' pass against numbers of walks and the shares of
them that pass a vertex, and the scores that several threads add up; incremental triangle counts
against a recount; hook-and-climb labels and the server's statistics; breadth-first component trees
with bounded parent lists; the sorting of a batch of actions.

**Names** (`NameTable`, `Names`). The open-addressing table from strings to type numbers, for any
hash function, and the hash function that the table uses.

Integers are unbounded except where 64-bit extremes serve as markers, weights and stamps differ from
the lock marker, scores and dependencies are reals. Loops that OpenMP may run in parallel are modelled
as their sequential run, except insertions with their headers and the parallel prefix sum.

## Where the code and its documentation differ

- `stinger_remove_edge` returns -1 for an absent edge, where its comment promises 0; and since the weight
  word holds the lock marker when it is subtracted, the total weight grows by 1.
- `update_edge_data` compares a stamp with the lower end of the block's range without regard to sign
  (src/core/stinger.c:815, since `readff` of inc/util/x86-full-empty.h:32-33 returns an unsigned word). A negative stamp
  in a block whose range lies at or above zero stays outside of it, and only then does an update leave its stamp outside
  (`EdgeBlocks.StampedExactly`); insertions at 10 and then at -5 leave a store that the consistency check reports
  (`ConsistencyCheck.NegativeStamp`). server.cpp:100 passes a client's stamp on unchecked.
- `stinger_sort_actions` returns 1 when no action joins two vertices, where its comment promises the number of
  incident vertices; the deletions of a vertex come in descending order of their targets.
- `stinger_names_lookup_name` returns the empty string, not NULL, for a number not yet given out; a name is answered
  with the id of a longer one that begins with it exactly when its probe comes to that one first
  (`NameTable.LongerAnswered`; "at" and then "a": `Names.LongerName`); the guard in `stinger_names_create_type` lets one type
  too many in; and a name that found no room in the string pool leaves its slot locked.
- The server's `n_components` is the number of vertices whatever the edges are.
- Concurrent insertions can wait for ever, though every lock is given back by its taker: the first edge of an emptied
  block is stamped by plain stores, which can overwrite the lock that a second insertion has just taken
  (`StampTheorems.DeadlockExactly`, `StampTheorems.EmptiedDeadlocks`).
- `extract_edges` subtracts an edge twice from a diagonal when both its ends leave the same community: both are listed,
  and a third vertex of the community is listed after both or not at all (`Movers.NothingSharedExactly`,
  `Movers.SharedExample`).
- `cstate_preproc` looks for the weight of a removed edge in the store, from which the server has already removed it;
  the community graph keeps the weight, and with positive weights it reflects the graph without the removed edges if and
  only if there are none (`CommunityState.RemovedStay`, `CommunityState.RemovedExample`).
- `update_community` stops, once something has merged and no edge is left, before `csize` and `cmap_global` follow the
  contracted graph (`UpdateCommunity.EarlyStop`).
- `stinger_consistency_check` accepts any count on a block without edges. With one edge type and
  assertions on, a wrong out-degree is never reported: the flag is set, and then an assertion in
  `stinger_to_unsorted_csr` ends the program (`SortedCsr.Check`).
  Its search for duplicates sorts with a comparison that is right for at most 2^31 vertices (`SortedCsr.ComparesExactly`).
- `stinger_set_initial_edges` does not add to the total weight, and its stamp ranges cover the entries only if no
  entry of a block is first seen after the last recent stamp or refreshed before the earliest first stamp; one edge
  inserted at 10 and again at 5 comes back from a checkpoint with a range that misses it (`CsrRestore.EarlierRefresh`).
- `static_betweenness_centrality_init` runs on as many roots as it was asked for, though it sets only as many as there are
  vertices with an edge (`Betweenness.SelectRoots`); and it leaves out the remainder of their number by the number of
  threads (`Betweenness.Scores`).
- `prefix_sum` of `community.c` returns the total only on the last thread.

## Model

| member | source | states |
|---|---|---|
| InsertTheorems.EveryInterleaving | src/core/stinger.c:853-944 | at every moment of every schedule of any number of calls: the chain only grows, stored edges stay, no destination is in two slots, nothing is stored that was not asked for, a returned call's destination is in exactly one slot; a slot that no call holds has the first stamp it had before the calls or, if it was filled since, that of a call to its destination that has returned 1; calls abort exactly when the blocks have run out |
| InsertTheorems.EveryCompletion | src/core/stinger.c:890-943 | once all calls have returned no slot or pointer is locked, every appended block is chained and registered once in order, and the out-degree is the number of filled slots, grown by one per call that returned 1; every edge that was there has its first stamp still, every new one that of the call to it that returned 1 |
| InsertTheorems.SlotsAndPointersMove | src/util/x86-full-empty.c:20-75 | slot and pointer locks on their own, the stamp words' locks left aside, never stop the calls: some thread can move until all have returned |
| InsertRuns.StepKeeps | src/core/stinger.c:853-944 | every atomic access to slots, pointers, marks and the out-degree keeps the invariant of memory, locks, claims, counts and all threads' local knowledge |
| InsertFirsts.StepFirsts | src/core/stinger.c:897-923 | every atomic access leaves every claimed slot the first stamp that it has or, while a call holds it, will have; a slot just claimed gets that of the call that claims it |
| StampProtocol.Underneath | src/core/stinger.c:780-836 | with the accesses to the header added, every run is still a run of the insert protocol, so its results hold of the whole |
| StampInvariant.GoKeeps | src/core/stinger.c:780-836 | every atomic step of every call keeps: a lower stamp is locked exactly while one call has it, and no plain store of a first insertion meets a lock |
| StampTheorems.NoDeadlock | src/util/x86-full-empty.c:20-75 | with all locks, unless a used block of the type is empty at the start: at every moment of every schedule some call can move until all have returned |
| StampTheorems.DeadlockExactly | src/core/stinger.c:787-824 | on any quiet store whose ranges of empty used blocks end below the largest 64-bit number: some calls with 64-bit stamps under some schedule wait for ever if and only if the chain has a used block of the type without an edge |
| StampTheorems.EmptiedDeadlocks | src/core/stinger.c:790-822 | a chain of one block whose two edges were removed: insertions can wait for ever |
| StampDeadlock.HollowDeadlocks | src/core/stinger.c:787-824 | for every quiet store with such a block, the calls, with stamps up to a given bound above its range, and the schedule: one call's plain store overwrites the lock that the next one has taken |
| StampCounts.GoCounts | src/core/stinger.c:787-799 | every step keeps edge counts, in-degrees and out-degree in step with the slots, but for calls between two of their accesses |
| StampTheorems.EveryOutcome | src/core/stinger.c:787-944 | once all calls have returned: every block's edge count is its number of edges; each in-degree has grown by the calls to the vertex that returned 1, of which there is exactly one if an edge to it is new and none otherwise; first stamps as they were, or those of these calls; beside all that the insert protocol promises |
| StampReports.ClaimedForStep | src/core/stinger.c:890-943 | every atomic step that claims a slot claims it for a destination that had none, and no other step changes which destinations have one |
| StampRanges.GoRange | src/core/stinger.c:814-822 | every step keeps: what a call has read of a stamp range, with or without the lock, stays true, since ranges only grow; the lower end counts for stamps that the unsigned comparison lets through |
| StampRanges.AloneExactly | src/core/stinger.c:814-822 | six accesses of a call on its own leave the range of an update by one caller, with the stamp in it exactly unless it is negative and the range was not |
| StampTheorems.RangesCover | src/core/stinger.c:814-822 | unless a used block of the type is empty at the start: once all calls have returned, no call's stamp is above the range of the block that has its edge; none that is not negative is below it, and no negative one where the range began below zero; no range has shrunk and no stamp is locked |
| EdgeStore.Stinger.UpdateEdgeData | src/core/stinger.c:780-836 | a free slot is filled, a live one refreshed, a negative neighbor blanks it; header, degrees and total weight change exactly as said, the range by the unsigned comparison, and nothing else does |
| EdgeStore.Stinger.EtypeBegin | src/core/stinger.c:765-776 | the first block of a chain with the type, or its end where no block has it, together with the link leading there |
| EdgeStore.Stinger.FindEdge | src/core/stinger.c:875-888 | the scan finds the edge exactly when the map has it, and where it is stored |
| EdgeStore.Stinger.PlaceNew | src/core/stinger.c:890-943 | a new edge goes into a free slot or a new block and becomes one more key of the map; ranges that covered their edges go on to do so exactly unless a block in use missed the stamp; only a full chain of full blocks in a used-up pool aborts |
| EdgeStore.Stinger.InsertEdge_ | src/core/stinger.c:853-944 | refines the map update that sets weight and recent stamp and keeps a first stamp; 1, 0 or -1 for a new edge, a known one, a loop; exact total weight; ranges that covered their edges go on to do so exactly unless the edge's block was in use, at or above zero, and the stamp is negative |
| EdgeStore.Stinger.IncrEdge_ | src/core/stinger.c:1017-1108 | the same with the weight added to what the edge had |
| EdgeStore.Stinger.RemoveEdge | src/core/stinger.c:1200-1235 | removes exactly that key; 1 or -1 by whether it was there; total weight off by one |
| EdgeStore.Stinger.InsertEdgePair | src/core/stinger.c:1135-1151 | both directions in the map and a result that says which are new, on any map; a symmetric map stays symmetric; an abort leaves nothing or the first direction; ranges go on to cover under stamps that are not negative |
| EdgeStore.Stinger.IncrEdgePair | src/core/stinger.c:1168-1184 | the same for increments, each direction with its own sum as the new weight |
| EdgeStore.Stinger.RemoveEdgePair | src/core/stinger.c:1251-1264 | both directions go, on any map; 3 if both were there and -1 otherwise; symmetry stays |
| EdgeBlocks.StoreFilled | src/core/stinger.c:788-824 | filling a free slot keeps chains, registration, headers, counts and degrees exact and adds one key to the map; ranges that cover go on to do so if and only if the block does not miss the stamp |
| EdgeBlocks.StoreUpdated | src/core/stinger.c:808-824 | refreshing an edge keeps all of them and changes one value of the map; ranges that cover go on to do so if and only if the block does not miss the stamp |
| EdgeBlocks.StampedExactly | src/core/stinger.c:814-822 | an update of a block in use leaves its stamp in the range if and only if the stamp is not negative or the range begins below zero; ranges only grow, and no further than the stamp |
| EdgeBlocks.FilledExactly | src/core/stinger.c:788-824 | a slot that is filled takes neighbor, weight and one stamp for both; the range of a block without edges becomes that stamp, any other takes it in as a refresh would |
| EdgeBlocks.UnsignedWords | inc/util/x86-full-empty.h:32-33 | the comparison of the stamp with what readff returns is the order of the two words as unsigned 64-bit numbers |
| EdgeBlocks.StoreBlanked | src/core/stinger.c:826-833 | blanking a live slot keeps all of them and removes one key; ranges that cover go on to do so |
| EdgeBlocks.StoreAppended | src/core/stinger.c:927-943 | an empty block at the end of a chain keeps all of them and leaves the map as it is |
| ConsistencyCheck.NoFlags | src/core/stinger.c:402-471 | on a store with sound links and no edge twice, no flag is raised if and only if all headers (an empty block's count apart), stamp ranges and degrees are exact |
| ConsistencyCheck.StoreAccepted | src/core/stinger.c:402-471 | a store that the operations leave raises no flag if and only if its stamp ranges cover its edges |
| ConsistencyCheck.StoreReport | src/core/stinger.c:450-453 | the only flags such a store can raise are the two of the stamp ranges, each exactly when some block's range is too short at that end |
| ConsistencyCheck.NegativeStamp | src/core/stinger.c:814-822 | two insertions from one vertex at 10 and at -5 leave a store with these two edges, a range that misses one, and the flag of the lower stamp |
| ConsistencyCheck.OutCount | src/core/stinger.c:415-464 | what the check counts along a chain is the number of edges from the vertex |
| ConsistencyCheck.InCount | src/core/stinger.c:428-471 | what it counts over all chains is the number of edges to the vertex |
| ConsistencyCheck.CheckBlock | src/core/stinger.c:416-460 | for any block, the flags are exactly those its header deserves, and the in-degree counters grow by its live targets |
| ConsistencyCheck.BlockFlagsAre | src/core/stinger.c:416-460 | what each of the six flags of a block says of its owner, mark, edge count, both ends of its range and the slots above the mark |
| SortedCsr.GatherSuccessors | src/core/stinger.c:1496-1529 | the entries of all live slots of the vertex's chain, as many as there is room for, and nothing written outside that room |
| SortedCsr.ChainRowCounts | src/core/stinger.c:1510-1526 | what is gathered from a chain has as many entries, and as many to each vertex, as the check counts along it |
| SortedCsr.ToUnsortedCsr | src/util/stinger-utils.c:504-556 | every vertex's edges in its row, rows one after another; the assertion fails exactly when some out-degree is not that of its chain |
| SortedCsr.ComparesExactly | src/util/stinger-utils.c:398-401 | the comparison, cut to an int, orders the vertices if and only if there are at most 2^31 |
| SortedCsr.SortRow | src/util/stinger-utils.c:449-478 | a row is rearranged through sorted pointers, all arrays alike, and ascends wherever the comparison is right |
| SortedCsr.ToSortedCsr | src/util/stinger-utils.c:439-484 | each row is a rearrangement of its vertex's edges, ascending for up to 2^31 vertices |
| SortedCsr.RowIsMap | src/util/stinger-utils.c:439-484 | on a store that the operations leave, a row has an entry exactly for each of the vertex's edges, with type, weight and both stamps |
| SortedCsr.AdjacentSuffices | src/core/stinger.c:486-499 | an ascending row has a vertex twice if and only if two neighboring entries are equal |
| SortedCsr.RowsReport | src/core/stinger.c:475-508 | the two flags of the rows: some chain has an edge back to its vertex; some chain has two edges to one vertex, found without fail for up to 2^31 vertices and never reported falsely |
| SortedCsr.Check | src/core/stinger.c:401-511 | for any chains that end: it is stopped exactly by a wrong out-degree, and otherwise returns the flags of blocks and in-degrees, edges back and duplicates |
| SortedCsr.CheckStore | src/core/stinger.c:401-511 | a store of one type that the operations leave, with 64-bit stamps, passes the whole check if and only if its stamp ranges cover its edges |
| CsrBuild.LiveCount | src/core/stinger.c:1966-1971 | a block's cached count is its number of live slots |
| CsrBuild.SortedIsCsr | src/core/stinger.c:1990-2013 | live slots sorted by source are the CSR form of the type's edges: each edge once, in its row, with weight and both stamps |
| CsrBuild.BuildCsr | src/core/stinger.c:1958-2013 | the counting sort leaves the CSR form of the map's edges of the type, in arrays that reach as far as edges leave vertices |
| CsrRows.RowsCarry | src/core/stinger.c:1958-2013 | adding such arrays row by row to a map without the type gives exactly that map plus the type's edges |
| CsrBlocks.StoreGrouped | src/core/stinger.c:700-735 | a group of chained empty blocks in front of a chain keeps the store sound and the map unchanged |
| CsrBlocks.StoreChunk | src/core/stinger.c:1381-1414 | an empty block that takes a chunk of new entries keeps the store sound and adds exactly these edges |
| CsrLoad.NewBlocks | src/core/stinger.c:700-735 | every vertex's blocks are empty, typed, owned by it and chained to one another, and nothing else in the pool changes |
| CsrLoad.LoadChunk | src/core/stinger.c:1381-1414 | one block takes its share of the arrays; in-degrees count its targets |
| CsrLoad.LoadVertex | src/core/stinger.c:1347-1427 | one vertex's row is in its blocks and in the map, its blocks lead its chain, and the arrays still follow a sound store |
| CsrRestore.SetInitialEdges | src/core/stinger.c:1287-1433 | on a store without the type, whatever else it holds, the map gains exactly the rows; it aborts exactly when the rows' blocks do not fit; the store stays sound, and its stamp ranges cover if and only if they did before and each block's worth of entries fits the range computed for it |
| CsrRestore.BlocksVerdict | src/core/stinger.c:1395-1412 | with filled blocks behind older ones, ranges cover if and only if the older blocks' did and each block's share of the rows fits its computed range |
| CsrRestore.OrderedFit | src/core/stinger.c:1395-1412 | entries first seen no later than refreshed always fit their block's range |
| CsrRestore.LateFirst | src/core/stinger.c:1395-1412 | a vertex's only edge of the type, first seen after its recent stamp, never fits |
| CsrRestore.EarlierRefresh | src/core/stinger.c:1395-1412 | an edge inserted at 10 and again at 5, saved and loaded: the same map, in a store whose range does not cover it |
| CsrRoom.RowRoom | src/core/stinger.c:1313-1322 | a row takes no more blocks than its vertex has of the type |
| CsrRoom.RoomEnough | src/core/stinger.c:1313-1334 | the rows of a saved store take no more blocks than the store has used |
| CsrRestore.SaveTypes | src/core/stinger.c:1954-2013 | for every type, the arrays are the CSR form of its edges, for any bound on the vertices that edges leave |
| CsrRestore.LoadTypes | src/core/stinger.c:2175-2182 | loading all types into an empty store gives the saved map back, or aborts exactly when the rows need as many blocks as the pool has or more; stamp ranges cover exactly when the entries fit |
| CsrRestore.SaveAndLoad | src/core/stinger.c:1954-2182 | saving and loading gives the same map with weights and both stamps, and the same degrees; a pool larger than what the store has used always takes it; stamp ranges cover when every edge was first seen no later than refreshed |
| Weights.QuotientComposes | src-demo/community.c:2311-2314 | contracting by m1 and then by m2 is contracting by m2 after m1 |
| Weights.QuotientTotals | src-demo/community.c:453-460 | a quotient keeps the total weight, and its cut is the weight between different groups |
| Weights.CellsDecide | src-demo/graph-el.h:73-100 | lists with equal cells have equal weight between whatever ends a symmetric relation selects |
| Weights.RelabelRespects | src-demo/community.c:496-513 | merging vertices of equal graphs gives equal graphs |
| Sorts.PartitionIki | src-demo/sorts.c:240-261 | stays in its range, rearranges it, and returns a split point inside it with keys at most and at least the pivot on its sides |
| Sorts.InsertStrided | src-demo/sorts.c:127-152 | one insertion rearranges the prefix, and with stride one keeps it sorted |
| Sorts.IntrosortIki | src-demo/sorts.c:291-316 | for every input a key-sorted permutation of the pairs, nothing outside touched; ends by the depth limit |
| PrefixSum.Serial | src-demo/community.c:338-348 | the exclusive prefix sum, and the total |
| PrefixSum.SlicesTile | src-demo/community.c:296-312 | for every number of threads the slices cover each index exactly once |
| PrefixSum.TeamIsSerial | src-demo/community.c:296-335 | for every number of threads and every interleaving the array ends as the serial exclusive prefix sum; thread t returns the sum up to its slice's end |
| PrefixSum.TeamMoves | src-demo/community.c:296-335 | no thread waits for ever at a barrier |
| Buckets.CanonicalNormal | src-demo/graph-el.h:73-100 | both orders of an edge have one normal form, which is one of them and is left as it is |
| Buckets.RoughBucketSortEl | src-demo/community.c:351-383 | a stable bucket sort of the edges by stored row, with exact offsets |
| Buckets.BucketCell | src-demo/community.c:351-383 | laying a list out by rows keeps every cell |
| Contract.CollapseRow | src-demo/community.c:595-631 | a sorted row keeps one entry per neighbor with the summed weight, and its loops move to the diagonal |
| Contract.SortAndCollapse | src-demo/community.c:560-653 | the same for all rows, each within its bucket |
| Contract.RoughBucketCopyBack | src-demo/community.c:384-413 | the collapsed rows end up one after another in the edge list, with right bounds |
| Contraction.CollapseDiagonal | src-demo/community.c:463-479 | each new diagonal entry is the sum of the entries merged into it |
| Contraction.CollapsedSame | src-demo/community.c:560-673 | collapsing keeps every cell, loops counted on the diagonal |
| Contraction.TidySimple | src-demo/community.c:675-722 | in the resulting list no edge is a loop and no two places join the same vertices |
| Contraction.ContractEl | src-demo/community.c:415-722 | the graph left in place is the exact quotient by m, laid out in sorted contiguous rows, with no more edges than before and an edge between two new vertices exactly where there was one between their groups |
| Contraction.ContractSelfEl | src-demo/community.c:2514-2764 | the same graph in the same tidy layout |
| Matching.SlicedNonMaximalPass | src-demo/community.c:763-990 | earlier matches stay, the result is a matching, whoever leaves the list unmatched has no eligible edge, and the list gets shorter; of the edges open to the list one of the greatest score is matched, of equal ones the foremost, and so is each edge with a score above all others at its ends |
| Matching.MaximalMatchIter | src-demo/community.c:1041-1096 | for every score array it ends with a matching that leaves no positive edge between unmatched vertices; for every positive edge one that is no worse is matched, and each edge with a score above all others at its ends is |
| MatchLabels.ConvertElMatchToRelabel | src-demo/community.c:115-193 | exactly the two ends of a matched edge share a label, labels are 0..n without gaps, and there are fewer exactly when something was matched |
| UpdateCommunity.LayOut | src-demo/community.c:2098-2117 | the entry layout keeps every cell and puts the edges in rows |
| UpdateCommunity.Progress | src-demo/community.c:2219-2349 | whether the matching is maximal or one pass, the vertex count drops if and only if some score is positive |
| UpdateCommunity.CurrentTotal | src-demo/community.c:2144-2397 | total weight never changes; the cut is that of the entry graph under the composed map |
| UpdateCommunity.ContractStep | src-demo/community.c:2232-2314 | the current graph is again the quotient of the entry graph, by the composed map |
| UpdateCommunity.ResizeStep | src-demo/community.c:2360-2393 | sizes are again the histogram of the moved-on global map, none empty; largest size and number of non-singletons exact |
| UpdateCommunity.Turn | src-demo/community.c:2144-2397 | a turn that does not leave the loop lowers the vertex count; one that does leaves the quotient right |
| UpdateCommunity.UpdateCommunity | src-demo/community.c:2001-2404 | whatever the scores: the graph is the quotient of the entry graph by c, total weight constant, steps plus vertices bounded by the entry's vertices, sizes and global map behind the graph if and only if something merged and no edge is left. The trace has the graph and map before each turn: no test stops the loop before any of them, each merges pairs by its scores as a matching does and leaves a list without loops and repeats, and the loop ends before the first turn that the step limit (the number of vertices if none is given), the largest size, the number of vertices, the coverage or the score drop stops, or after one that merges nothing, when no score is positive, or leaves no edge |
| UpdateCommunity.EarlyStop | src-demo/community.c:2345-2354 | two vertices and one edge: they merge, and sizes and map still speak of two communities |
| Sizes.SizesTotal | src-demo/community.c:2363-2392 | the sizes of a histogram add up to the number of vertices |
| Sizes.SizeIs | src-demo/community.c:2363-2392 | a size is the number of vertices that the map takes to the community |
| Sizes.MergedSizes | src-demo/community.c:2366-2380 | sizes summed by group are the sizes under the composed map |
| InsQueue.InsertQueue.Enqueue | src-demo/community-update.c:334-372 | merged, queued or flushed, the edge arrives: list and queue together have the cells of what they had plus the edge |
| InsQueue.InsertQueue.Flush | src-demo/community-update.c:279-332 | the queue is emptied into the edge list, in order |
| InsQueue.CommunityGraph.GrowVertices | src-demo/graph-el.c:92-112 | old diagonal entries stay, new ones are zero |
| InsQueue.CommunityGraph.GrowEdges | src-demo/graph-el.c:114-124 | there is room, and no edge changes |
| ExtractionCells.ChangesCell | src-demo/community-update.c:438-574 | all that both passes add to a cell is the new quotient less the old one, less the weight between moved neighbors that shared the community |
| ExtractionCells.CountExact | src-demo/community-update.c:488-506 | the first pass counts exactly the edges the second enqueues |
| ExtractionCells.SharedPositive | src-demo/community-update.c:438-574 | with positive weights nothing is subtracted twice exactly when no two adjacent moved vertices shared a community |
| Movers.MovesExactly | src-demo/community-update.c:376-414 | a listed vertex moves if and only if some other vertex of its community was not listed before it |
| Movers.SharedExactly | src-demo/community-update.c:438-574 | an edge's weight is subtracted twice if and only if its ends are listed, from one community, of which another vertex is listed after both or not at all |
| Movers.NothingSharedExactly | src-demo/community-update.c:438-574 | nothing is subtracted twice when no edge is of this kind, and with positive weights only then: a condition on map, list and edges |
| Movers.ApartSuffices | src-demo/community-update.c:438-574 | it is enough that no two listed neighbors share a community |
| Movers.SharedExample | src-demo/community-update.c:376-574 | a community of three with its first two vertices listed: both move and its diagonal loses their edge twice |
| Extraction.AppendToVlist | src-demo/community-update.c:654-682 | a vertex is listed once however often it is touched |
| Extraction.ExtractVertices | src-demo/community-update.c:376-414 | the marks are the function of map, sizes and list that says who moves where; sizes stay the exact histogram, no community is emptied, new numbers stay below the number of vertices |
| Extraction.CountEdges | src-demo/community-update.c:453-513 | the first pass: the exact number of edges to come, and the diagonal entries moved by the vertices' inner weights |
| Extraction.EnqueueEdges | src-demo/community-update.c:520-574 | wherever flushes fall, the edge list has the cells of the old one plus all queued changes |
| Extraction.CommitCmapChange | src-demo/community-update.c:577-589 | marks become communities and are cleared |
| Extraction.ReflectsExactly | src-demo/community-update.c:598-650 | the graph is the quotient by the new map if and only if no moved neighbors shared a community |
| Extraction.UpdateEl | src-demo/community-update.c:598-650 | the graph is the quotient by the new map if and only if nothing was subtracted twice, as map, sizes and list at entry say; sizes, marks and map as stated, and a list without loops or repeats |
| CommunityState.Preproc | src-demo/community-update.c:684-775 | the community graph reflects the graph with the batch's insertions and with removals of the weights still found, and exactly the vertices of changes between communities are listed; where there is such a change the list is left without loops and repeats |
| CommunityState.RemovedStay | src-demo/community-update.c:744-764 | when the removed edges are no longer in the adjacency lists, the community graph goes on reflecting the graph that has them, and, where their weights are positive, reflects the graph without them if and only if there are none |
| CommunityState.RemovedExactly | src-demo/community-update.c:744-764 | the community graph reflects the graph without the removed edges if and only if what was not subtracted for them adds up to nothing between any two communities |
| CommunityState.RemovedExample | src-demo/community-update.c:684-775 | one edge of weight 5 between two communities, removed from the store and then from the batch: the result reflects the graph with it, not the one without |
| CommunityState.ReflectsMerged | src-demo/community-update.c:239-275 | merging the communities of a graph that reflects the edges gives one that reflects them under the composed map |
| CommunityState.MergedExactly | src-demo/community-update.c:239-275 | with positive weights, merging never makes good what extraction subtracted twice |
| CommunityState.CstateUpdate | src-demo/community-update.c:239-275 | extraction and merging leave what the next batch starts from when nothing is subtracted twice, as map, sizes and list at entry say, and with positive weights only then; in particular when no two listed neighbors share a community; unless merging ran out of edges, which is decided exactly; largest size and number of non-singletons exact; merging stops for one of its tests, for want of edges or of positive scores |
| ShortestPaths.LevelsMinimal | src/alg/static_betweenness_centrality.c:71-100 | no walk is shorter than the level of its end |
| Dependencies.ThroughOnce | src/alg/static_betweenness_centrality.c:102-122 | a shortest path is at a vertex after as many edges as that is away from the root, or not at all: what the share counts |
| Dependencies.ByFirst | src/alg/static_betweenness_centrality.c:102-122 | walks counted by their last edge are counted by their first edge as well |
| Dependencies.DependencyRecurs | src/alg/static_betweenness_centrality.c:105-112 | shares of shortest paths satisfy the recurrence that the pass computes |
| Dependencies.RecursUnique | src/alg/static_betweenness_centrality.c:105-112 | nothing else satisfies it |
| Brandes.SearchDone | src/alg/static_betweenness_centrality.c:66-100 | levels are distances, counts are numbers of shortest paths, lists hold exactly the shortest-path predecessors |
| Brandes.ParentsFit | src/alg/static_betweenness_centrality.c:56-100 | on an undirected graph a parent list never outgrows the vertex's degree |
| Brandes.Accumulate | src/alg/static_betweenness_centrality.c:102-122 | the dependencies satisfy Brandes' recurrence over all shortest-path successors |
| Brandes.OwedIsDependency | src/alg/static_betweenness_centrality.c:102-122 | what the recurrence over the search's lists leaves at a vertex is its share of all shortest paths |
| Brandes.BfsBrandesPerTree | src/alg/static_betweenness_centrality.c:56-125 | the whole pass: every vertex's dependency is, over all other vertices reached, the share of their shortest paths from the root that pass it; the root's is the number of reached vertices minus one; every other reached vertex is credited with its own |
| Betweenness.MeasuredUnique | src/alg/static_betweenness_centrality.c:66-100 | the levels that dependencies are counted with are determined by graph and root |
| Betweenness.DependencyRange | src/alg/static_betweenness_centrality.c:16-21 | from one root, a vertex other than it contributes between 0 and n - 2 |
| Betweenness.CentralityRange | src/alg/static_betweenness_centrality.c:16-21 | the documented range: between 0 and n - 2 for each root that is another vertex |
| Betweenness.SelectRoots | src/alg/static_betweenness_centrality.c:331-337 | the roots are vertices with an edge, in ascending order, with none left out below the last; where there are fewer than asked for, the rest of the list is left as it was |
| Betweenness.Scores | src/alg/static_betweenness_centrality.c:128-164 | for any number of threads, the scores are the sums of the dependencies from the roots that fall to some thread, all but the remainder of their number by that of threads |
| Triangles.CountTriangles | src/alg/streaming_clustering_coefficients.c:14-46 | the number of ordered pairs of adjacent neighbors |
| Triangles.CountAllTriangles | src/alg/streaming_clustering_coefficients.c:48-65 | the same at every vertex |
| Triangles.CountsIsCounter | src/alg/streaming_clustering_coefficients.c:372-399 | a new triangle is counted by exactly one of its new edges, whether it has one, two or three |
| Triangles.CountedNext | src/alg/streaming_clustering_coefficients.c:372-399 | an edge and a neighbor count a triangle not counted before, or none |
| Triangles.AfterBatch | src/alg/streaming_clustering_coefficients.c:287-411 | after an insert-only batch the updated counts equal a recount at every vertex, and the global count is their sum |
| Triangles.MinTimeAttained | src/alg/streaming_clustering_coefficients.c:294-305 | the least time of a batch is that of one of its actions |
| Triangles.InsertsMakeBatch | src/alg/streaming_clustering_coefficients.c:294-328 | inserting pairs newer than all edges makes a batch of this kind |
| Labels.SettledLabels | src/alg/static_components.c:17-43 | when no edge lowers a label any more, every label is the least vertex of its component |
| Labels.Settle | src/alg/static_components.c:17-43 | hooking and climbing ends, with least labels |
| Labels.ShiloachVishkin | src/alg/static_components.c:5-56 | least labels from scratch, and the number of least vertices with a type |
| Labels.TypedAll | src/alg/static_components.c:45-55 | that is the number of components exactly when all of them have a type |
| Labels.SameLabel | src/alg/static_components.c:17-43 | two vertices share a label if and only if they are connected |
| Labels.ComponentsBatch | server.cpp:528-613 | labels right for fewer edges become right after any insert-only batch; number of components with two or more vertices and largest size exact; marks ready for the next batch |
| Labels.ReportedComponents | server.cpp:560-564 | the reported number of components is right if and only if no edge joins two vertices |
| ComponentTrees.EdgeTurn | src/alg/streaming_components.c:78-108 | following one edge keeps levels, labels, lists, sizes and the queue in agreement |
| ComponentTrees.LeastOfComponent | src/alg/streaming_components.c:520-560 | a vertex is labelled with the least vertex connected to it |
| ComponentTrees.LevelIsDistance | src/alg/streaming_components.c:50-117 | a vertex's level is its distance from its label |
| ComponentTrees.SizesAreHistogram | src/alg/streaming_components.c:530-560 | sizes are exact at the roots and zero elsewhere |
| ComponentTrees.ListsOfKin | src/alg/streaming_components.c:88-106 | lists are bounded and sound, slot 0 of every vertex but a root is a parent, and a list with room left holds every parent and same-level neighbour |
| Components.Workspace.BfsBuildComponent | src/alg/streaming_components.c:50-117 | one search finds the component of its root, and returns its size |
| Components.Workspace.Init | src/alg/streaming_components.c:520-552 | after initialisation every vertex is reached and every edge followed, with all of the above |
| Components.InitLabels | src/alg/streaming_components.c:520-552 | what a caller finds in the workspace's arrays: least labels, distances, sizes |
| SortActions.SortBatch | src/core/stinger.c:1799-1891 | the result is the non-self actions in both directions, sorted, cut by source into groups of deletions, decoded, and then insertions; for any two vertices u and v, u's group has each as often as the actions ask for it from either end, every vertex of an action has its group, and no entry leads back to its source when the vertices of an action are both complemented or neither |
| SortActions.BetweenProper | src/core/stinger.c:1807-1826 | what such actions ask for: an insertion by either order of the two vertices, a deletion by either order of their complements |
| SortActions.GroupedIntro | src/core/stinger.c:1853-1885 | offsets at the groups' starts cut a sorted list by its sources into groups that are not empty |
| SortActions.ReturnedCount | src/core/stinger.c:1841-1891 | the returned number is the number of sources if and only if some action joins two vertices |
| SortActions.TargetsOrdered | src/core/stinger.c:1869-1884 | in a group, deletions descend and insertions ascend |
| NameTable.CreateOk | src/core/stinger-names.c:115-157 | one creation keeps the table sound and disturbs nothing; new ids are 0, 1, 2, ...; the name is found under its id from then on |
| NameTable.IdForever | src/core/stinger-names.c:115-189 | once a name gives an id, every later create or lookup of it gives that id, whatever else is created |
| NameTable.FindKept | src/core/stinger-names.c:168-189 | what a probe has come to, a match or a lock, it comes to ever after |
| NameTable.CreateSucceeds | src/core/stinger-names.c:115-157 | with room for a type and its string, and nothing locked, creating always gives an id |
| NameTable.NoRoomExactly | src/core/stinger-names.c:136-141 | a new name finds no room exactly when its string and two more characters reach the end of the pool |
| NameTable.LockedForever | src/core/stinger-names.c:136-141 | a name whose string found no room is never answered again |
| NameTable.SoundUnlessBeyond | src/core/stinger-names.c:121-122 | the table stays sound if and only if a new name still has a number below the maximum, or its string no room |
| NameTable.NameOfId | src/core/stinger-names.c:196-204 | an id leads back to the string that was stored for it |
| NameTable.NamedBack | src/core/stinger-names.c:115-204 | whatever is created afterwards, the id that a new name got leads back to its first 127 characters, or all of it |
| NameTable.SharedId | src/core/stinger-names.c:117-133 | two names of at most 127 characters that give one id begin one with the other |
| NameTable.LongerAnswered | src/core/stinger-names.c:124-133 | an id given for a known name is that of a name beginning with it, and of another name exactly when the probe comes to a longer one first |
| Names.StingerNames.CreateType | src/core/stinger-names.c:115-157 | the in-place creation is the specified one, words overlaid as in the storage |
| Names.StingerNames.LookupType | src/core/stinger-names.c:168-189 | the id the probe gives, -1 without one, and no return exactly when the probe meets a locked slot |
| Names.StingerNames.LookupName | src/core/stinger-names.c:196-204 | the string stored at the id, which is that of its creator; the empty string for an id not given out; nothing beyond the table |
| Names.LostName | src/core/stinger-names.c:29-122 | with the table's own hash function and room for one type, creating "c" and then "a" makes "c" unfindable |
| Names.LongerName | src/core/stinger-names.c:29-133 | with the table's own hash function and room for one type, "a" after "at" is answered with the id of "at" |

## Left out

- InsertTheorems.EveryCompletion: in-degrees, block counts and stamp ranges are the subject of the Stamp modules; weights, the total weight and recent stamps, which concurrent calls to one destination may leave mixed, are not modelled, and removals do not run beside insertions.
- StampTheorems.NoDeadlock: calls of one source vertex and one type; first stamps that are the lock marker itself.
- EdgeStore.Stinger.RemoveEdge: the total weight after a removal is stated as the code leaves it, not as the sum of weights.
- Brandes.BfsBrandesPerTree: adjacency lists without repetition, that is one edge type, and path counts below the marker 2^63 - 1.
- Betweenness.Scores: a list of roots that is set to its end; the clearing and reduction loops, which go up to the greatest number of vertices that can be compiled in, stop at the number of vertices here.
- Triangles.AfterBatch: the affected list and the local clustering coefficients, which cover only third corners; deletions.
- UpdateCommunity.UpdateCommunity: scores, score-drop tests and the coverage test are arbitrary; the history of sizes is not kept.
- CommunityState.Preproc: the variant on encoded actions, which lists the ends of removals inside communities instead.
- SortActions.SortBatch: qsort and its comparison are represented by a sort by source and then target.
- SortedCsr.SortPointers: qsort is represented by an insertion of one pointer after another; of its order only what its contract says is used, and its comparison is that of the code.
- SortedCsr.Check: with more than one edge type the search for edges back and duplicates is not compiled; blocks with more slots in use than they have, and negative out-degrees, would send it outside its arrays.
- CsrRestore.SetInitialEdges: the variants with NULL stamp arrays, and a store that already has edges of the type.
- Components.Workspace.Init: the printed number of components and the histogram file.
- Names.StingerNames.CreateType: concurrent creations; a call that would spin for ever returns an outcome that says so.
- Running out of blocks ends the program: of an aborted call only what it leaves in the map is stated.
- The sorting branch of qflush, whose sort does not carry the weights; only the plain-append branch is modelled.
- Workspaces laid over one allocation are separate arrays here.
- The updates and rebuilds of streaming components after a batch, and the iterator over several edge types.
- Floating-point scores, rounding, pagerank, k-cores and the multi-contract clustering.
- Files, endianness, sockets, timers, histograms and printing.
