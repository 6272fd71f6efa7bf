# BusTub in Dafny

A verified model of four parts of BusTub, a teaching database system.

**Buffer pool and ARC replacer.** `Arc` is the replacement policy on four plain sequences; `ArcHistory` and `ArcAccess`
prove what it does over whole histories and call by call. `ArcReplacing.ArcReplacer` is the replacer as it runs, with list nodes,
iterators and hash maps, proved to refine `Arc`. `Pool` holds the critical sections of the buffer pool on values,
`BufferPool.BufferPoolManager` runs them in place, and `PoolProtocol` interleaves fetches, page guards, flushes and
deletions of any number of threads; `PoolRuns` states what runs keep of page contents, `PoolErasure` what every run
keeps of pins and mappings, `PoolLoss` exactly when page contents are lost, `PoolHistory` what the replacer's history
theorems say of the pool's fetches and evictions, and `PoolProgress` what operations can do, wait for and achieve.

**Planner and optimizer.** `Relational` gives plans a meaning as row sequences. `Optimizer` holds the rewrite rules
and pipelines, `OptimizerSound` proves that they keep the rows, `OptimizerLimits` and `OptimizerNulls` say exactly what
happens outside the plan shapes they rely on. `Planning` is the planner of expressions, `AggPlanning` and `AggMeaning` are
its two-phase aggregation planning, and `SelectPlanning` and `PlannerShape` the planner of table references and selects.
`SqlMeaning` says what a select means without any plan, and `QueryMeaning` proves that its planned and optimized plan gives
those rows. `PlannerAccepts` says which statements are accepted, and `PlannerLimits` follows queries outside the shapes from statement to optimized plan.

**Batched executors.** `Batches` and `Executors`: filters and projections pulling batches from a leaf.

**Count-min sketch and undo links.** `CountMin` and `CountMinConcurrent`; `UndoLinks`, the two-level store one small
step at a time, `UndoReplay`, its runs as sequential runs on a plain map, and `UndoProgress`, its freedom from deadlock.

Conventions: an exception or abort is `None`, `false` or a step that is not enabled; ids are natural
numbers; a lock's critical section is a method, or a sequence of steps where other threads can run in between.

## What the code does that its documentation does not say

- A `Scan` hit on an MFU frame (or MFU ghost) can push the MRU side past its bound, after which misses discard no
  ghost (`ArcHistory.BoundedIffNoDemotion`, `ArcHistory.ScanLeaks`, `PoolHistory.PoolBoundedIff`).
- A guard write between the disk write and the bit clearing of an Unsafe flush can leave a clean frame that the disk
  does not hold (`PoolRuns.CleanIffQuiet`), and the eviction of that frame loses the write
  (`PoolLoss.TransparentIff`, `PoolLoss.UnsafeFlushLosesWrite`).
- Merging a filter into an always-true LEFT join, which a LEFT JOIN on a constant that casts to true makes, adds a padded
  row for each left row that the filter leaves nothing of (`OptimizerLimits.FilterIntoLeftJoin`, `PlannerLimits.LeftJoinMergedWrongly`).
- The order-by rule ignores NULLS LAST: an ascending order by indexed columns puts nulls first all the same
  (`OptimizerNulls.SortByIndexIff`, `PlannerLimits.NullsLastBroken`). Null placement follows
  test/sql/p3.16-sort-limit.slt: first when ascending, last when descending, unless stated.
- An array built while evaluating over a join gets as many leading zeros as it has elements
  (src/include/execution/expressions/array_expression.h, `OptimizerLimits.ArrayOverJoin`). This concerns values alone: no
  comparison of vectors is implemented (src/type/vector_type.cpp), and the theorems about rows are stated for filters
  without arrays.
- A filter's `Init` in mid-run does not forget the unread rest of its child's batch (`Executors.ReInitTooEarly`).
- `UpdateTupleAndUndoLink` hands its check the link it is about to store, not the current one.

## Model

| member | source | states |
|---|---|---|
| `Arc.EvictEffect` | src/buffer/arc_replacer.cpp:52-66 | an eviction takes exactly the victim out of the alive frames and the evictable set, and its page becomes a ghost |
| `Arc.VictimExists` | src/buffer/arc_replacer.cpp:52-66 | there is a victim exactly when some frame is evictable |
| `Arc.RecordAccessWellFormed` | src/buffer/arc_replacer.cpp:97-177 | an access keeps the four lists duplicate-free and disjoint, alive frames equal to the two alive lists, and the target within the capacity |
| `Arc.RecordAccessEffect` | src/buffer/arc_replacer.cpp:97-177 | an access binds the frame to the page and keeps evictability only on a hit |
| `Arc.RecordAccessGhosts` | src/buffer/arc_replacer.cpp:138-177 | an access creates no ghost, and a page that comes in stops being one |
| `Arc.RecordAccessExclusive` | src/buffer/arc_replacer.cpp:97-177 | alive pages stay unique among frames and disjoint from the ghosts |
| `ArcHistory.HistoryInOrder` | src/buffer/arc_replacer.cpp:120-133 | in every history mru is oldest access first, mfu newest first, and the ghost lists likewise by eviction |
| `ArcHistory.VictimIsLeastRecent` | src/buffer/arc_replacer.cpp:59-65 | after every history the victim is the least recently accessed evictable frame of the side that the target picks, or of the other side only if the picked one has none |
| `ArcHistory.DiscardedGhostIsOldest` | src/buffer/arc_replacer.cpp:160-174 | a ghost pushed out by an access to another page is the oldest eviction of its list |
| `ArcHistory.AccessBounded` | src/buffer/arc_replacer.cpp:97-177 | an access keeps the size bounds exactly when it does not bring something of the MFU side to a full MRU side |
| `ArcHistory.BoundedIffNoDemotion` | src/buffer/arc_replacer.cpp:97-177 | a history keeps mru plus its ghosts within c and all lists within 2c throughout exactly when no call demotes |
| `ArcHistory.NoScanBounded` | src/buffer/arc_replacer.cpp:160-176 | without Scan accesses those bounds hold in every history |
| `ArcHistory.ScanLeaks` | src/buffer/arc_replacer.cpp:120-130 | one Scan lets a one-frame replacer collect any number of ghosts |
| `ArcAccess.StepMovesTarget` | src/buffer/arc_replacer.cpp:138-150 | an access to an MRU ghost raises the target, to the capacity or by the largest d with d times the MRU ghosts at most the MFU ghosts (at least 1); one to an MFU ghost lowers it likewise, to 0 at least; no other call moves it |
| `ArcAccess.TargetHistory` | src/buffer/arc_replacer.cpp:138-150 | so at every call of every history |
| `ArcAccess.AccessSides` | src/buffer/arc_replacer.cpp:106-176 | an access leaves its frame on the MRU side exactly if it is a Scan or the page was unknown, and no other frame changes sides |
| `ArcAccess.EvictSides` | src/buffer/arc_replacer.cpp:269-314 | an evicted page becomes a ghost of its frame's side, and no other ghost changes |
| `ArcAccess.MissDiscards` | src/buffer/arc_replacer.cpp:160-174 | a miss discards the oldest MRU ghost if the MRU side is full, else the oldest MFU ghost if all lists are full, else none |
| `ArcReplacing.ArcReplacer.constructor` | src/buffer/arc_replacer.cpp:29-32 | a new replacer is the empty four-list state |
| `ArcReplacing.ArcReplacer.Size` | src/buffer/arc_replacer.cpp:264-267 | the counter is the number of evictable frames |
| `ArcReplacing.ArcReplacer.SetEvictable` | src/buffer/arc_replacer.cpp:196-218 | refines the four-list operation; a negative frame id is refused |
| `ArcReplacing.ArcReplacer.Remove` | src/buffer/arc_replacer.cpp:236-255 | refuses exactly an alive frame that is not evictable, and else forgets the frame |
| `ArcReplacing.ArcReplacer.TryEvictFromMru` | src/buffer/arc_replacer.cpp:269-290 | buries the oldest evictable frame of mru; the stale-entry branch is unreachable |
| `ArcReplacing.ArcReplacer.TryEvictFromMfu` | src/buffer/arc_replacer.cpp:292-314 | buries the oldest evictable frame of mfu; the stale-entry branch is unreachable |
| `ArcReplacing.ArcReplacer.Evict` | src/buffer/arc_replacer.cpp:52-66 | returns the four-list victim and leaves the four-list state |
| `ArcReplacing.ArcReplacer.RemoveGhostEntry` | src/buffer/arc_replacer.cpp:316-327 | drops the ghost through its stored iterator |
| `ArcReplacing.ArcReplacer.InsertMruGhost` | src/buffer/arc_replacer.cpp:329-333 | the page becomes the newest MRU ghost, once |
| `ArcReplacing.ArcReplacer.InsertMfuGhost` | src/buffer/arc_replacer.cpp:335-339 | the page becomes the newest MFU ghost, once |
| `ArcReplacing.ArcReplacer.InsertToMru` | src/buffer/arc_replacer.cpp:341-344 | the frame becomes the newest of mru |
| `ArcReplacing.ArcReplacer.InsertToMfu` | src/buffer/arc_replacer.cpp:346-349 | the frame becomes the newest of mfu |
| `ArcReplacing.ArcReplacer.MoveAliveToMfu` | src/buffer/arc_replacer.cpp:351-365 | a hit moves the frame to the newest end of mfu |
| `ArcReplacing.ArcReplacer.TrimGhosts` | src/buffer/arc_replacer.cpp:160-174 | makes room in the ghost lists as the four-list form does |
| `ArcReplacing.ArcReplacer.AdaptTarget` | src/buffer/arc_replacer.cpp:140-150 | moves the target as the four-list form does, within the capacity |
| `ArcReplacing.ArcReplacer.RecordAccess` | src/buffer/arc_replacer.cpp:97-177 | refines the four-list access; a negative frame id is refused |
| `Pool.HitInv` | src/buffer/buffer_pool_manager.cpp:239-244 | a fetch of a resident page keeps page table, free list, frames and replacer in agreement |
| `Pool.TakeInv` | src/buffer/buffer_pool_manager.cpp:246-256 | the taken frame is unpinned and leaves free list or replacer |
| `Pool.InstallInv` | src/buffer/buffer_pool_manager.cpp:258-280 | the installed page restores full agreement |
| `Pool.InstallContent` | src/buffer/buffer_pool_manager.cpp:261-278 | installing changes no page's content, once the old page was written back |
| `Pool.UnpinInv` | src/storage/page/page_guard.cpp:180-187 | a drop keeps evictable equal to unpinned |
| `Pool.DeleteInv` | src/buffer/buffer_pool_manager.cpp:184-188 | a deletion keeps the agreement |
| `Pool.DeleteContent` | src/buffer/buffer_pool_manager.cpp:169-190 | a deletion touches the content of no other page |
| `Pool.ClearContent` | src/buffer/buffer_pool_manager.cpp:488-491 | clearing the dirty bit keeps clean frames equal to disk exactly when the disk holds the frame's data |
| `Pool.ChoiceExists` | src/buffer/buffer_pool_manager.cpp:246-256 | a miss finds a frame exactly when some frame is unpinned |
| `Pool.Partition` | src/buffer/buffer_pool_manager.cpp:120-123 | free list and range of the page table split the frames, and the page table is injective |
| `Pool.PartitionSize` | src/buffer/buffer_pool_manager.cpp:120-123 | free frames and resident pages add up to the number of frames |
| `Pool.NoPageMismatch` | src/buffer/arc_replacer.cpp:106-118 | where the pool records an access, the replacer's page-mismatch branch is unreachable |
| `Pool.RemoveNeverThrows` | src/buffer/buffer_pool_manager.cpp:184-184 | the frame removed by a deletion is evictable |
| `BufferPool.BufferPoolManager.constructor` | src/buffer/buffer_pool_manager.cpp:99-124 | all frames free and empty, replacer empty |
| `BufferPool.BufferPoolManager.NewPage` | src/buffer/buffer_pool_manager.cpp:148-148 | ids are given out in order, and nothing else changes |
| `BufferPool.BufferPoolManager.DeletePage` | src/buffer/buffer_pool_manager.cpp:169-190 | answers true exactly when the page is not resident or its frame's pin count is 0; then the page is unmapped and its frame empty and last on the free list |
| `BufferPool.BufferPoolManager.CheckedPage` | src/buffer/buffer_pool_manager.cpp:231-285 | a fetch gives nothing exactly when the page is not resident and all frames are pinned; else a frame that holds the page's content, and no page's content changes |
| `BufferPool.BufferPoolManager.BringIn` | src/buffer/buffer_pool_manager.cpp:326-361 | the miss path: frame from free list or replacer, write-back, read, pin, map |
| `BufferPool.BufferPoolManager.Unpin` | src/storage/page/page_guard.cpp:180-187 | one pin less, evictable at zero, no content changes |
| `BufferPool.BufferPoolManager.Store` | src/storage/page/page_guard.cpp:316-320 | a guard write changes the content of its page alone and marks it dirty |
| `BufferPool.BufferPoolManager.FlushPage` | src/buffer/buffer_pool_manager.cpp:474-493 | a resident page is on disk as in memory afterwards, and no content changes |
| `BufferPool.BufferPoolManager.FlushAllPages` | src/buffer/buffer_pool_manager.cpp:534-547 | afterwards every page is on disk as its content and no resident page is dirty |
| `BufferPool.BufferPoolManager.GetPinCount` | src/buffer/buffer_pool_manager.cpp:573-580 | the pin count of a resident page, nothing for others |
| `PoolProtocol.InitInv` | src/buffer/buffer_pool_manager.cpp:99-124 | the protocol invariant holds at the start |
| `PoolRuns.StepInv` | src/buffer/buffer_pool_manager.cpp:231-285 | every step of every thread, except an Unsafe flush clearing the bit of a frame that the disk does not hold, keeps agreement, clean frames equal to disk, content equal to a plain map, pins equal to guards, writers alone on a page latch |
| `PoolRuns.CacheIsPlainMap` | src/buffer/buffer_pool_manager.cpp:231-285 | at every point of every run each page's content is that of a plain map updated only by guard writes and deletions, if Unsafe flushes clear the bit only of frames that the disk holds |
| `PoolRuns.CleanIffQuiet` | src/buffer/buffer_pool_manager.cpp:436-454 | in every run clean frames agree with the disk at all states exactly when at each bit clearing of an Unsafe flush the disk holds the frame's data |
| `PoolRuns.CalmIsQuiet` | src/buffer/buffer_pool_manager.cpp:436-454 | that is so if no guard writes new bytes into a frame between the disk write and the bit clearing of an Unsafe flush |
| `PoolRuns.LatchExcludesWriters` | src/buffer/buffer_pool_manager.cpp:474-493 | the shared page latch of a safe flush keeps writers off its frame, which the disk holds once it is written out |
| `PoolRuns.SafeCacheIsPlainMap` | src/buffer/buffer_pool_manager.cpp:534-547 | with safe flushes only, the plain-map theorem needs no promise about writers |
| `PoolRuns.PinnedIsKept` | src/buffer/buffer_pool_manager.cpp:178-182 | a guarded page is mapped to its frame, never the next victim and never deletable |
| `PoolErasure.StepErased` | src/buffer/buffer_pool_manager.cpp:231-285 | no step's structure depends on page contents: the same system over blank pages can take the same step, and there no write is ever lost |
| `PoolErasure.RunStructured` | src/buffer/buffer_pool_manager.cpp:436-454 | every state of every run, whatever its writers and flushes do, has the structure of a state that keeps the whole invariant |
| `PoolErasure.ReachableAgrees` | src/buffer/buffer_pool_manager.cpp:120-123 | in every such state free list, page table, frames and replacer agree, pins count guards, and a writer holds its page latch alone |
| `PoolErasure.PinnedStaysMapped` | src/buffer/buffer_pool_manager.cpp:238-284 | in every run, from the pin of a fetch to the matching unpin, before and after the guard is built, the page stays mapped to the same frame, which is never a victim, and cannot be deleted |
| `PoolHistory.ReplacerIsHistory` | src/buffer/buffer_pool_manager.cpp:231-285 | in every run the replacer's state is that of the history of the calls the pool made, all on frames of the pool |
| `PoolHistory.PoolBoundedIff` | src/buffer/arc_replacer.cpp:97-177 | every run keeps the replacer's lists within c and 2c at all states exactly when no Scan fetch brings a page of the MFU side to a full MRU side |
| `PoolHistory.PoolWithoutScans` | src/buffer/arc_replacer.cpp:160-176 | without Scan fetches those bounds hold at every point of every run |
| `PoolHistory.EvictsLeastRecentlyFetched` | src/buffer/buffer_pool_manager.cpp:246-256 | every eviction of every run takes the least recently fetched unpinned frame of the side that the target picks, or of the other side if that has none |
| `PoolProgress.DeletableIff` | src/buffer/buffer_pool_manager.cpp:178-182 | in every run, with the pool latch free, a page can be deleted exactly when no guard is on it |
| `PoolProgress.DeletedPage` | src/buffer/buffer_pool_manager.cpp:184-189 | a deleted page is unmapped, its frame empty and last on the free list, and no other page moves |
| `PoolProgress.FetchCan` | src/buffer/buffer_pool_manager.cpp:238-256 | in every run, with the pool latch free, a fetch is a hit exactly when the page is resident, else a miss exactly when some frame has no guard |
| `PoolProgress.MissGives` | src/buffer/buffer_pool_manager.cpp:246-284 | a miss ends in the guard, page and mode it was begun for, on the frame it took, whatever guards do meanwhile |
| `PoolProgress.LatchableIff` | src/storage/page/page_guard.cpp:38-49 | a reader takes its page latch exactly when no writer holds it, a writer when neither a guard nor a safe flush does |
| `PoolProgress.GuardCan` | src/storage/page/page_guard.cpp:146-187 | a guard stores while a latched writer, flushes and releases while latched, and is dropped once released and the pool latch is free |
| `PoolProgress.NeverStuck` | src/buffer/buffer_pool_manager.cpp:474-493 | in every run some step always advances the fetch, flush or guard under way, or what it waits for |
| `PoolProgress.FlushTakesDirty` | src/buffer/buffer_pool_manager.cpp:483-486 | a flush takes up a page exactly when its frame is dirty |
| `PoolProgress.FlushCompletes` | src/buffer/buffer_pool_manager.cpp:534-547 | a flush that ends has had each of its pages clean and on disk as in its frame at some moment since it began |
| `PoolRuns.LatchedReads` | src/storage/page/page_guard.cpp:38-49 | a guard that holds its latch reads the plain map's content, and a writer is alone |
| `PoolErasure.FetchFailsIff` | src/buffer/buffer_pool_manager.cpp:246-256 | at every point of every run a fetch fails exactly when the page is not resident and every frame is pinned, so there is a guard for every frame |
| `PoolLoss.StepContent` | src/buffer/buffer_pool_manager.cpp:246-285 | any step keeps every page's content right exactly when it does not evict a frame that the disk does not hold |
| `PoolLoss.TransparentIff` | src/buffer/buffer_pool_manager.cpp:261-278 | every run, with any flushes and writers, has the plain map's content at all states exactly when each eviction finds the evicted frame's data on disk |
| `PoolLoss.NoisyWriteBreaksClean` | src/buffer/buffer_pool_manager.cpp:436-454 | after the last guard write in the window of an Unsafe flush clean frames still agree with the disk exactly when the write changed nothing |
| `PoolLoss.EvictionOfStaleFrame` | src/buffer/buffer_pool_manager.cpp:261-278 | evicting a clean frame gives the page the disk's content |
| `PoolLoss.UnsafeFlushLosesWrite` | src/buffer/buffer_pool_manager.cpp:436-454 | a sixteen-step run in which a page is written as `a`, flushed unsafely, written as `b` before the bit is cleared, released and evicted: its content is `a` again, the plain map's is `b` |
| `Relational.RowsWide` | src/execution/plan_node.cpp:30-56 | the rows of a well-typed plan have its schema's width |
| `Optimizer.FirstIndex` | src/optimizer/nlj_as_index_join.cpp:37-46 | the index search finds one on exactly the asked key columns, if there is one |
| `OptimizerSound.RewriteMeaning` | src/optimizer/merge_filter_nlj.cpp:39-58 | the rewritten expression on (l, r) has the original's value on l ++ r, for every array-free expression |
| `OptimizerSound.ScopedRewritable` | src/optimizer/merge_filter_nlj.cpp:45-56 | the rewrite succeeds exactly when all columns are in scope |
| `OptimizerSound.DropIdentityProjectionSound` | src/optimizer/merge_projection.cpp:36-70 | dropping an identity projection keeps rows and schema |
| `OptimizerSound.FilterIntoJoinRows` | src/optimizer/merge_filter_nlj.cpp:80-100 | a filter over an always-true INNER join gives the rows of the join on the rewritten predicate |
| `OptimizerSound.JoinByIndexRows` | src/optimizer/nlj_as_index_join.cpp:58-104 | an equi-join with an unfiltered scan gives the rows of the index join, INNER or LEFT |
| `OptimizerSound.LookupSame` | src/optimizer/nlj_as_index_join.cpp:80-98 | a complete index with unique keys answers a lookup as the table does |
| `OptimizerSound.SortIsIndexOrder` | src/optimizer/order_by_index_scan.cpp:46-82 | an ascending sort on an index's key columns is the index order, when null orders agree on the table |
| `OptimizerSound.SortByIndexRows` | src/optimizer/order_by_index_scan.cpp:46-82 | a sort of an unfiltered scan gives the rows of the index scan |
| `OptimizerSound.FilterIntoScanSound` | src/optimizer/merge_filter_scan.cpp:36-47 | merging a filter into a scan keeps the rows |
| `OptimizerSound.DropTrueFilterSound` | src/optimizer/eliminate_true_filter.cpp:34-40 | dropping an always-true filter keeps the rows |
| `OptimizerSound.ApplySound` | src/optimizer/merge_filter_nlj.cpp:73-102 | each rule, bottom-up over a whole planner-shaped plan, never throws and keeps rows, widths and shape |
| `OptimizerSound.PipelineSound` | src/optimizer/optimizer.cpp:20-34 | every pipeline in which no index rule follows the filter-into-scan rule keeps the exact rows |
| `OptimizerSound.OptimizeSound` | src/optimizer/optimizer_custom_rules.cpp:22-32 | both shipped pipelines keep the exact rows and the schema of every planner-shaped plan |
| `OptimizerLimits.ArrayOverJoin` | src/include/execution/expressions/array_expression.h:47-59 | an array has the same value over a join as over one tuple exactly when it is empty |
| `OptimizerLimits.FilterIntoLeftJoin` | src/optimizer/merge_filter_nlj.cpp:90-98 | merging into an always-true LEFT join adds one row for each left row that the filter keeps nothing of, and keeps the rows exactly when there is none |
| `PlannerLimits.LeftJoinMergedWrongly` | src/planner/plan_table_ref.cpp:152-160 | a planned LEFT JOIN on a true constant with a WHERE clause gives no row, its plan after either pipeline one |
| `OptimizerLimits.SortOverFilteredScan` | src/optimizer/order_by_index_scan.cpp:70-81 | over a filtered scan the order-by rule keeps the rows exactly when the filter keeps every row |
| `OptimizerLimits.MergingScansFirst` | src/optimizer/optimizer.cpp:24-29 | with the two rules swapped the rows are kept exactly when the filter was useless; in the shipped order always |
| `OptimizerLimits.IndexJoinOverFilteredScan` | src/optimizer/nlj_as_index_join.cpp:77-98 | over a filtered scan the index-join rule keeps the rows of an INNER or LEFT join exactly when the filter keeps every index match |
| `OptimizerLimits.MergingScansBeforeJoins` | src/optimizer/optimizer.cpp:24-29 | with the index-join and filter-into-scan rules swapped a join keeps its rows exactly when the filter passes every index match; in the shipped order always |
| `OptimizerNulls.SortIsIndexOrderIff` | src/optimizer/order_by_index_scan.cpp:50-64 | any list of ascending keys sorts as the index exactly when no two rows tie on the keys before a NULLS LAST key that is null in one of them alone |
| `OptimizerNulls.SortByIndexIff` | src/optimizer/order_by_index_scan.cpp:46-82 | wherever the rule fires, it keeps the rows exactly when the scan's filter, if any, keeps the table and no two rows of the table clash so |
| `PlannerLimits.OrderedTableIff` | src/optimizer/optimizer.cpp:20-34 | a planned select of a table in ascending order of an index's columns keeps its rows through either pipeline exactly when no two rows of the table clash |
| `PlannerLimits.NullsLastBroken` | src/optimizer/order_by_index_scan.cpp:51-64 | a planned `order by ... asc nulls last` over an indexed column whose rows either pipeline changes |
| `OptimizerLimits.ApplyNormal` | src/optimizer/merge_projection.cpp:29-72 | one bottom-up pass of any rule leaves nothing for it to do at any node |
| `OptimizerLimits.ApplyTwice` | src/optimizer/nlj_as_index_join.cpp:51-107 | applying a rule twice is applying it once |
| `OptimizerLimits.RedexIff` | src/optimizer/nlj_as_index_join.cpp:58-104 | each rule rewrites a node exactly when it is of the form the rule is for, written out for each rule |
| `OptimizerLimits.ApplyLeavesNoRedex` | src/optimizer/merge_filter_scan.cpp:29-50 | one pass of a rule leaves no node of that form anywhere in the plan |
| `Planning.TryGetColIdx` | src/include/catalog/schema.h:70-77 | the first column of a name, if any |
| `Planning.HasDuplicate` | src/planner/plan_expression.cpp:63-71 | the loop finds out whether two columns share the name |
| `Planning.JoinedColumn` | src/planner/plan_expression.cpp:57-110 | a name resolves in the joined schema exactly when it resolves in the two sides and neither repeats it, and the rewrite maps the one result to the other |
| `Planning.PlanThenRewrite` | src/planner/plan_expression.cpp:41-113 | planning against the joined schema and rewriting gives what planning against the two sides gives |
| `SelectPlanning.WhereIsJoinOn` | src/planner/plan_table_ref.cpp:134-160 | filtering a cross product and merging gives the very plan of the INNER JOIN on that condition |
| `PlannerShape.TableRefTyped` | src/planner/plan_table_ref.cpp:55-160 | planned table references are well typed |
| `PlannerShape.SelectTyped` | src/planner/plan_select.cpp:47-183 | planned selects are well typed, aggregations included |
| `PlannerShape.SelectShaped` | src/planner/plan_select.cpp:47-183 | they have the shape the rules rely on unless the query uses LEFT JOIN on a true constant, NULLS LAST ascending, or an array in WHERE or HAVING |
| `PlannerShape.QueryPreserved` | src/optimizer/optimizer.cpp:20-34 | optimizing the plan of such a query, aggregations included, gives a plan with the same schema and rows, in order |
| `QueryMeaning.AggSelectMeaning` | src/planner/plan_aggregation.cpp:62-178 | aggregation node, HAVING filter and projection together give, for each group that HAVING keeps, the select list over the group |
| `QueryMeaning.AggregationIff` | src/planner/plan_select.cpp:72-94 | a select is planned as an aggregation exactly when it has GROUP BY, HAVING or an aggregate call outside function calls |
| `QueryMeaning.AggregatePlanned` | src/planner/plan_select.cpp:94-96 | its plan projects an aggregation of the filtered table exactly then, through a filter exactly with HAVING, and else projects the filtered table |
| `QueryMeaning.GroupsKeepRows` | src/include/execution/executors/aggregation_executor.h:90-95 | if the hash table puts each input row in one group, the groups together hold exactly the input rows |
| `QueryMeaning.TableMeaning` | src/planner/plan_table_ref.cpp:55-160 | the plan of a table reference has its columns' names and gives its rows: products, INNER and LEFT joins on the condition over the joined row, subqueries |
| `QueryMeaning.SelectMeaning` | src/planner/plan_select.cpp:47-183 | the plan of a select gives its rows: WHERE, select list or aggregation, DISTINCT, ORDER BY over the output names, LIMIT |
| `QueryMeaning.QueryIsRight` | src/optimizer/optimizer.cpp:20-34 | planner and either pipeline together give exactly the rows that the query means |
| `PlannerAccepts.ExprAccepted` | src/planner/plan_expression.cpp:41-198 | an expression is accepted exactly when its names resolve, its operators exist and get operands of their types, arrays are its only functions, and there is a prepared column for each call; its type is the one read off it |
| `PlannerAccepts.AggregateAccepted` | src/planner/plan_aggregation.cpp:62-178 | an aggregation is accepted exactly when its group-by items, calls, HAVING and select list are |
| `PlannerAccepts.TableAccepted` | src/planner/plan_table_ref.cpp:55-160 | a table reference is accepted exactly when its parts and conditions are, and has the columns of its parts |
| `PlannerAccepts.SelectAccepted` | src/planner/plan_select.cpp:47-183 | a select is accepted exactly when its table, WHERE, select list or aggregation, and ORDER BY are, and has the names and types of its items |
| `AggPlanning.Planner.AddAggCallToContext` | src/planner/plan_expression.cpp:120-159 | the collecting walk appends the calls left to right and leaves pseudo calls numbered in that order |
| `AggPlanning.Planner.PlanExpression` | src/planner/plan_expression.cpp:161-198 | the planning walk, using one prepared column per call |
| `AggPlanning.Planner.ResolveColumn` | src/planner/plan_expression.cpp:49-113 | columns resolve against one child or the two sides of a join |
| `AggPlanning.Planner.PlanAggCall` | src/planner/plan_aggregation.cpp:39-57 | arguments are planned in a fresh context that is put back, so aggregates do not nest |
| `AggPlanning.Planner.PlanAllCalls` | src/planner/plan_aggregation.cpp:118-146 | each collected call becomes an input, a type and a column after the group-by columns |
| `AggPlanning.Planner.PlanSelectAgg` | src/planner/plan_aggregation.cpp:62-178 | computes the aggregation plan and puts the caller's context back |
| `AggMeaning.PlannedOnRow` | src/planner/plan_expression.cpp:161-198 | a planned aggregate-free expression has its source's value on every row |
| `AggMeaning.CallMeaning` | src/planner/plan_aggregation.cpp:129-140 | a planned call's input aggregates to the value of the aggregate of its name; count(*) becomes a count of ones |
| `AggMeaning.CallAccepted` | src/planner/expression_factory.cpp:28-51 | a call is accepted exactly when it is not distinct, its arguments can be planned, and it is count(*) without argument or min, max, sum or count of one |
| `AggMeaning.PlannedOverGroup` | src/planner/plan_expression.cpp:161-198 | the planning walk meets the calls in the collecting order, uses each once, and keeps the source's value |
| `AggMeaning.AggregationIsRight` | src/planner/plan_aggregation.cpp:96-177 | over the aggregation's output row, HAVING and every select item have their source's value over the group |
| `AggMeaning.EveryCallUsedOnce` | src/planner/plan_aggregation.cpp:155-172 | in every accepted statement HAVING and the select list use up the prepared columns, each once |
| `Batches.FillIsRight` | src/execution/filter_executor.cpp:49-100 | a pull fills the batch as far as passing rows go, loses none, and leaves less than a batch unread |
| `Executors.Executor.Next` | src/execution/filter_executor.cpp:42-101 | a pull gives the next rows with aligned rids, as many as fit, and false exactly when nothing is left |
| `Executors.Executor.NextLeaf` | src/execution/values_executor.cpp:35-54 | the leaf's pull |
| `Executors.Executor.NextProjection` | src/execution/projection_executor.cpp:40-103 | the projection's pull; its leftover branch is unreachable |
| `Executors.Executor.Init` | src/execution/filter_executor.cpp:30-33 | reinitializing reproduces the rows exactly when no passing row was left unread |
| `Executors.PullAll` | src/execution/filter_executor.cpp:42-101 | any pipeline pulled to the end emits exactly filter and map of the leaf's rows, in batches of 1 to the size, and can be reinitialized |
| `Executors.PullAllTwice` | src/execution/projection_executor.cpp:28-31 | from a fresh or drained state a second run gives the same rows |
| `Executors.ReInitTooEarly` | src/execution/filter_executor.cpp:87-97 | a pipeline reinitialized after one pull repeats a row |
| `Executors.FilterMeaning` | src/execution/filter_executor.cpp:79-99 | the filter executor computes its plan node's rows |
| `Executors.ProjectionMeaning` | src/execution/projection_executor.cpp:75-100 | the projection executor computes its plan node's rows |
| `CountMin.CountMinSketch.Insert` | src/primer/count_min_sketch.cpp:100-105 | one more key in the stream the counters stand for, modulo 2^32 |
| `CountMin.CountMinSketch.Count` | src/primer/count_min_sketch.cpp:169-182 | the estimate: the least of the key's counters; at least its occurrences and at most all inserts below 2^32 |
| `CountMin.EstimateBounds` | src/primer/count_min_sketch.cpp:169-182 | the estimate is one of the key's counters and above none of them, and below 2^32 inserts lies between its occurrences and all inserts |
| `CountMin.CountMinSketch.Merge` | src/primer/count_min_sketch.cpp:137-150 | the counters of both streams together; refused exactly when dimensions differ; adopts the other's k |
| `CountMin.CountMinSketch.Clear` | src/primer/count_min_sketch.cpp:185-195 | the empty stream, and no k |
| `CountMin.CountMinSketch.TopK` | src/primer/count_min_sketch.cpp:198-241 | a prefix of the stable descending sort of the candidates by their estimates, of length min(k, first k, candidates), with nothing better left out |
| `CountMin.SortIsStable` | src/primer/count_min_sketch.cpp:233-234 | the sort is descending, a permutation, and keeps ties in order |
| `CountMin.CellOrder` | src/primer/count_min_sketch.cpp:100-105 | counters do not depend on the order of inserts |
| `CountMin.MergeCell` | src/primer/count_min_sketch.cpp:141-144 | adding counters is concatenating streams, modulo 2^32 |
| `CountMinConcurrent.StepInv` | src/primer/count_min_sketch.cpp:100-105 | every interleaved increment and read keeps counters equal to the increments made and running counts within bounds |
| `CountMinConcurrent.AnyInterleavingIsSequential` | src/primer/count_min_sketch.cpp:100-105 | after any interleaving the counters are those of any sequential order |
| `CountMinConcurrent.RowsSumToInserts` | src/primer/count_min_sketch.cpp:100-105 | every row sums to the number of inserts |
| `CountMinConcurrent.ConcurrentCount` | src/primer/count_min_sketch.cpp:169-182 | a count lies between the inserts of its key completed before it and all inserts begun by its end |
| `CountMinConcurrent.CountIsLeastRead` | src/primer/count_min_sketch.cpp:173-181 | whatever runs beside it, a Count is above no counter that it read, one for each row, and is one of them |
| `CountMinConcurrent.CountBetween` | src/primer/count_min_sketch.cpp:169-182 | below 2^32 inserts a Count lies between the item's estimate before its first read and the estimate at its end |
| `CountMinConcurrent.CountAlone` | src/primer/count_min_sketch.cpp:169-182 | with no increment since before its first read it is the estimate |
| `UndoLinks.StepInv` | src/concurrency/transaction_manager_impl.cpp:44-90 | every step of every thread keeps the lock ownership facts and that a checked link is still current |
| `UndoLinks.EffectIsAtomic` | src/concurrency/transaction_manager_impl.cpp:57-149 | at its effective step an operation does on the flat map what it would do alone; a coupled update's flag is its check's answer on the tuple read under the latch, and a refused one changes nothing |
| `UndoLinks.SilentStep` | src/concurrency/transaction_manager_impl.cpp:46-56 | all other steps leave the flat map alone |
| `UndoLinks.NodesStay` | src/concurrency/transaction_manager_impl.cpp:48-54 | each page's entry is created once and never replaced |
| `UndoLinks.ResultWasAtomic` | src/concurrency/transaction_manager_impl.cpp:44-90 | every result was fixed at one step of the operation's own, as an atomic check-and-set or look |
| `UndoLinks.PairIsCurrent` | src/concurrency/transaction_manager_impl.cpp:154-162 | what a coupled read returns is current, tuple and link together, at its effective step |
| `UndoLinks.TripleWasCurrent` | src/concurrency/transaction_manager_impl.cpp:154-162 | in every run a finished coupled read's tuple and link were current together at one instant |
| `UndoLinks.PairsChangeWhole` | src/concurrency/transaction_manager_impl.cpp:129-149 | if all link writers are coupled updates, a record's pair changes only through one that is under way |
| `UndoLinks.PairBecomesWhole` | src/concurrency/transaction_manager_impl.cpp:141-148 | a coupled update leaves exactly its own tuple and link |
| `UndoReplay.AbstractIsStored` | src/concurrency/transaction_manager_impl.cpp:129-149 | a record that no coupled update is in the middle of has the stored tuple and link as its pair on the plain map |
| `UndoReplay.EffectIsSequential` | src/concurrency/transaction_manager_impl.cpp:129-162 | at its effective step an operation does to its record's pair on the plain map what it does alone, to no other record, and gets that result and tuple |
| `UndoReplay.SilentAbstract` | src/concurrency/transaction_manager_impl.cpp:44-90 | all other steps leave the plain map of pairs alone, the tuple write of a coupled update included |
| `UndoReplay.RunIsReplay` | src/concurrency/transaction_manager_impl.cpp:129-162 | after any k steps of any run the plain map is the fold of the effects in order, and each effect has its result and tuple of that sequential run |
| `UndoReplay.EffectsOnce` | src/concurrency/transaction_manager_impl.cpp:44-90 | the operations that have a result are those that took effect, each exactly once and with that result |
| `UndoReplay.RealTimeOrder` | src/concurrency/transaction_manager_impl.cpp:44-90 | an operation that had its result before another began precedes it in that order |
| `UndoProgress.NeverStuck` | src/concurrency/transaction_manager_impl.cpp:44-162 | deadlock freedom: in every run, while an operation is unfinished, some operation can take a step |
| `UndoProgress.LatchWaits` | src/concurrency/transaction_manager_impl.cpp:129-162 | a coupled update takes the page latch exactly when no operation holds it, a coupled read when no update does |
| `UndoProgress.MapWaits` | src/concurrency/transaction_manager_impl.cpp:44-90 | a writer takes the map's lock exactly when no operation holds it, a reader when no writer does |
| `UndoProgress.NodeWaits` | src/concurrency/transaction_manager_impl.cpp:44-90 | an operation takes a page entry's lock exactly when no operation holds it |

## Left out

- Disk errors: disk reads and writes succeed; the code drops an evicted frame even when its write fails and ignores the result of the read.
- The content of a page id after its deletion is arbitrary (`left`), and a page never written holds what the initial disk holds; page id allocation beyond the counter and `DeallocatePage` are not modelled.
- Threads that hold a guard while they fetch or flush: guards are independent of one another in the model, so `PoolProgress.NeverStuck` does not rule out a thread that waits for its own latch, as `FlushPage` can while it holds the pool latch.
- Raw pointers kept past a guard call: a guard write sets data and dirty bit in one step.
- PoolRuns.CacheIsPlainMap: stated for runs whose Unsafe flushes clear the bit only of frames that the disk holds; runs with safe flushes need no promise, and `PoolLoss.TransparentIff` has the exact condition for all runs.
- BufferPool.BufferPoolManager.CheckedPage: stands for both checked fetches, whose latched sections are the same; building the guard is a step of `PoolProtocol`.
- LRU, LRU-K and clock replacers, lock manager, watermark, garbage collection, ORSet, skip list, trie, HyperLogLog, log and checkpoint managers are unimplemented in the repository.
- The join, sort, index, aggregation, limit and DML executors are unimplemented; their meaning is defined in `Relational` and, for aggregation, `AggMeaning`.
- Hash join, top-N, sequential-scan-as-index-scan and column pruning rules: they return the plan unchanged.
- The type system: equality of values is structural, constants in predicate position are booleans, evaluation errors are not modelled, and comparison is any asymmetric order (a strict weak order in `OptimizerNulls`).
- RIGHT and OUTER joins, window functions, CTE lookup, selects without FROM, INSERT, DELETE and UPDATE planning, and the generated names of unnamed select columns.
- Grouping: which rows form a group, and the order of the groups, are an arbitrary function of their keys, as the hash table's equality and order are.
- QueryMeaning.QueryIsRight: stated for join conditions without arrays and, in aggregations, for names as the binder makes them.
- AggMeaning.AggregationIsRight: column references are taken to be qualified (table, dot, column) and group-by items not to be aliases, as the binder makes them.
- Executors.Executor.Next: one batch size per run; with changing sizes a filter's leftover may exceed a smaller batch.
- Count-min sketch moves, self-merge, and `item_set_` and `top_k_heap_`, which no function reads back; concurrent `Merge`, `Clear` and `TopK`.
- Undo logs, timestamps and transaction states.
- Binder, parser, SQL shell, mock tables, table generator and build tooling.
