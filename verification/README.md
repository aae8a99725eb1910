# Verified models of allocator, splitting, diff, scoring and text code

The project models the parts of the repository whose correctness does not show from any single
function body, and proves what they are for.

* **The allocator's free list** (`LockFreeList`). `TLFAllocFreeList` as a step machine: each atomic
  read, write, fetch-and-add and compare-and-swap of `Alloc` and `Free` is one step, any number of
  threads interleave freely, and callers may scribble over blocks they hold. Blocks are never lost,
  never shared, and a successful pop always has the true successor, although the list carries no
  tags against reuse. Every interleaving is a history of an atomic pool, but for one thing: null may be
  returned while blocks are free. A call that is not disturbed ends, and what it then does is said in full.
* **Block ownership and defragmentation** (`Blocks`, `BlockMoves`, `BlockSupply`, `DrainedChunks`,
  `Defragment`, `ChunkAllocator`, `ThreadAllocator`). With calls atomic: chunks, bump allocation, groups of 15
  pointers, per-thread stacks and defragmentation keep every carved block in exactly one place.
  A drained chunk may still be the current chunk of its size; the proof shows that nothing can be
  carved from it any more, which is why freeing it is safe. Whether a call fails is known before it: an
  allocation exactly when no block is to be had, a call that frees exactly when fewer blocks are left for
  groups than it needs.
* **Optimal splitting** (`Splitting`, `SplitRows`, `SafeRows`, `RlmColumns`, `RlmRows`,
  `BestSplits`). The plain quadratic mode is the reference; divide and conquer fills the same rows;
  the two bracketing modes reach the same errors; the thresholds read back are optimal over all
  splits.
* **Longest common subsequences and the diff on them** (`Lcs`, `LcsMemory`, `Diff`). Against the
  usual table of prefix lengths, with the witness read back from the piles, and the diff's greedy walk.
* **Greedy scoring and feature selection** (`BinFeatures`, `GreedyRuns`, `PlainScorer`,
  `CachingScorer`, `Selection`). The cached run is repaired by looking only at the bins enabled last,
  and stays a greedy run over all of them; the fast selection reports what the plain one reports first.
* **Entropies** (`Entropy`). Rows packed from bins have equal values exactly when all bins agree on
  them, so the counts, and with them the conditional mutual information, do not depend on the order
  of adding; looking one bin ahead gives what adding it would give, with either kind of counter.
* **Text** (`Utf`, `JsonPrettifier`, `CppTokens`, `CppLexer`). UTF-8 and UTF-16 with the exact conditions under
  which going there and back is lossless; the prettifier's one held-back character, against the text
  a value should have; and the C++ lexer, which hands on exactly the tokens that reading the input
  token by token gives, and loses nothing however the input is cut into pieces.
* **The calendar** (`Calendar`). `GmTimeR` for all integers against section 4.16 (Seconds Since the
  Epoch) of IEEE Std 1003.1-2017, and `TimeGM` as its inverse.

Numbers: integers are unbounded, and `real` stands for `double`, so rounding is not modelled. The
tolerance of 1e-12 in the splitting is modelled; for integer penalties it changes no comparison.
The penalty, the sum inside an entropy and, for the scorers, the conditional mutual information are
parameters, constrained only as each theorem says. Lists, maps and locals are values; loops are the source's loops.

Where the code and the impression it gives differ, the model follows the code:

* The first inverted scan of mode `E_RLM2` is clipped to its column, the later ones are not
  (`library/grid_creator/binarization.cpp:357` against `:439`), so they also weigh last groups of zero
  or negative weight. `RlmRows.Beyond` shows why this does no harm for the penalty of weight squared,
  whatever the weights, and `Steep` is what the proof takes from the penalty.
* The comment on the defragmenter asks only for free chunks; that a chunk may be freed while it is
  the current one is not mentioned. `DrainedChunks.DrainedIsUsedUp` covers it.
* A full refill of an empty stack (`library/lfalloc/lf_allocX64.cpp:1478-1482`) may take it below its
  border for the two largest sizes of the table for YT (`:172-190`); `ThreadAllocator.BorderRoom` says for which sizes.
* To evaluate a bin twice against the same background may fail a check
  (`cmicot/lib/caching_bin_scorer.cpp:69`); `CachingScorer.Again` says when it does not.
* A step that is looked for afresh sees only the bins enabled last (`cmicot/lib/caching_bin_scorer.cpp:18`
  and `:31-32`). So a bin that is not evaluated in some round, or with more steps than in the round before,
  may get a worse helper than the plain scorer finds (`CachingScorer.SkippedRound`); `Evaluate` says what the
  entry is in order for then.
* `Alloc` may return null although a free block is on `Pending`
  (`library/lfalloc/lf_allocX64.cpp:600-624`); `LockFreeList.NullDespitePending` is such a run.
* A string after another value at level 0 is written before the comma that is held for the other one
  (`library/json/json_prettifier.cpp:186-201`), outside compact mode.
* The range of values of an entropy calculator may wrap to 0 with 64 bins
  (`cmicot/lib/entropy_calculator.cpp:12`); then the places are none and the code writes past them.

## Model

| member | source | states |
|---|---|---|
| LockFreeList.StepKeepsInv | library/lfalloc/lf_allocX64.cpp:556-625 | any step of any thread keeps the invariant: Head, Pending, lists in transit and blocks with threads or callers are disjoint, acyclic and cover all blocks, and a snapshot is either still on Head or cannot come back while its Alloc runs |
| LockFreeList.RunsKeepInv | library/lfalloc/lf_allocX64.cpp:556-625 | the invariant holds after every run of any number of threads |
| LockFreeList.StartInv | library/lfalloc/lf_allocX64.cpp:543-554 | the empty list with all blocks in callers' hands satisfies the invariant |
| LockFreeList.RecheckProves | library/lfalloc/lf_allocX64.cpp:602-609 | when the sole allocator finds PendingToFreeListCounter unchanged, no thread has emptied Pending since it was read |
| LockFreeList.WholeCopy | library/lfalloc/lf_allocX64.cpp:603-616 | if Pending was never emptied and shows the same first block, it is exactly the list that was seen |
| LockFreeList.PopIsSafe | library/lfalloc/lf_allocX64.cpp:565-576 | a successful pop has the true successor of the head |
| LockFreeList.NoStalePop | library/lfalloc/lf_allocX64.cpp:568-573 | in every run the commented-out check keepNext == res->Next would hold at each successful pop |
| LockFreeList.BlocksNeverLostNorShared | library/lfalloc/lf_allocX64.cpp:592-625 | after every run each block has exactly one place and both lists are well formed |
| LockFreeList.NeverHandedOutTwice | library/lfalloc/lf_allocX64.cpp:600-625 | a block about to be returned by one Alloc is not held, not being freed and not returned by any other thread, and heads neither list |
| LockFreeList.QuiescentConservation | library/lfalloc/lf_allocX64.cpp:592-625 | when no call is in progress, the lengths of both lists and the number of held blocks add up to the number of blocks |
| LockFreeList.StepRefinesPool | library/lfalloc/lf_allocX64.cpp:556-625 | each step is one take, one put or nothing on an abstract pool of free blocks |
| LockFreeList.EveryRunIsAPoolHistory | library/lfalloc/lf_allocX64.cpp:592-625 | the takes and puts of any interleaving are a legal history of an atomic pool |
| LockFreeList.NullMeansEmptyHead | library/lfalloc/lf_allocX64.cpp:565-577 | an Alloc comes to return null only by reading an empty Head; the blocks free at that moment are on Pending or on their way from there |
| LockFreeList.NullDespitePending | library/lfalloc/lf_allocX64.cpp:600-624 | a run from the empty list after which an Alloc returns null although a free block is on Pending, put there while the Alloc was on its way |
| LockFreeList.LoneAlloc | library/lfalloc/lf_allocX64.cpp:600-625 | from any state of any run, an Alloc that no other thread disturbs ends: with no Alloc in flight it returns the first block of Pending, if there is one, and the rest then stand in front of Head; otherwise the first block of Head, if there is one, and null if not; nothing else changes |
| LockFreeList.NullWhenIdle | library/lfalloc/lf_allocX64.cpp:600-625 | when no call is running, an Alloc returns null exactly if both lists are empty |
| LockFreeList.LoneFree | library/lfalloc/lf_allocX64.cpp:592-599 | a Free that is not disturbed ends with the block in front of Head if no Alloc is in flight, and in front of Pending otherwise |
| Blocks.TableOk | library/lfalloc/lf_allocX64.cpp:178-190 | both tables of sizes have what the proofs use of them, and a group fills a block of its size |
| Blocks.BlocksDisjoint | library/lfalloc/lf_allocX64.cpp:759-776 | two blocks out at the same time do not overlap, and each lies inside its chunk |
| BlockMoves.Carve | library/lfalloc/lf_allocX64.cpp:759-776 | bump allocation adds exactly the blocks it returns to those carved, also when it ends the chunk |
| BlockMoves.NewChunk | library/lfalloc/lf_allocX64.cpp:795-803 | making a free chunk current adds one block; the chunk that was current loses none |
| BlockSupply.CellsFill | library/lfalloc/lf_allocX64.cpp:759-776 | the blocks counted for a room are as many as fit into it |
| BlockSupply.NoneLeft | library/lfalloc/lf_allocX64.cpp:784-822 | no block of a size is left, counting the current chunk, the free chunks and the regions that the system will give, exactly when the current chunk has no room, no chunk is free and the next request is refused |
| BlockSupply.MappedSame | library/lfalloc/lf_allocX64.cpp:811-819 | mapping a region leaves that number as it is |
| BlockSupply.GroupsFill | library/lfalloc/lf_allocX64.cpp:876-895 | the groups counted for some blocks are as many as groups of 15 hold them |
| DrainedChunks.CountDecides | library/lfalloc/lf_allocX64.cpp:700-711 | the count of listed pointers into a chunk reaches the number of its blocks if and only if all its blocks are listed |
| DrainedChunks.DrainedIsUsedUp | library/lfalloc/lf_allocX64.cpp:707-710 | a chunk all of whose blocks are listed has no block left to carve, even if it is current |
| DrainedChunks.SweptPointers | library/lfalloc/lf_allocX64.cpp:713-736 | sweeping keeps the pointers outside freed chunks, in order, and drops all others |
| DrainedChunks.SweptAddresses | library/lfalloc/lf_allocX64.cpp:725-728 | each group stays in its list or becomes spare, none is lost |
| DrainedChunks.SweptCompact | library/lfalloc/lf_allocX64.cpp:717-734 | every group that stays has its pointers in front of its empty entries, and at least one |
| DrainedChunks.DefragmentKeeps | library/lfalloc/lf_allocX64.cpp:670-757 | freeing exactly the drained chunks keeps the whole ownership invariant |
| Defragment.CountAll | library/lfalloc/lf_allocX64.cpp:685-697 | the loops leave in each counter the number of listed pointers into the chunk |
| Defragment.SweepGroup | library/lfalloc/lf_allocX64.cpp:715-733 | one group's pointers that stay end up in front, in order, and the rest is empty |
| Defragment.SweepAll | library/lfalloc/lf_allocX64.cpp:713-736 | all lists are swept, and list groups and spare groups together stay the same |
| Defragment.FreeMarked | library/lfalloc/lf_allocX64.cpp:737-749 | just the marked chunks get kind -1, and the list of free chunks is the old one followed by just these, in order |
| ChunkAllocator.DefragmentMem | library/lfalloc/lf_allocX64.cpp:670-757 | just the chunks all of whose blocks are listed become free and join the list of free chunks, just the pointers to them leave the lists, other pointers keep their multiplicity, and the result says whether there was one |
| ChunkAllocator.AllocFromCurrentChunk | library/lfalloc/lf_allocX64.cpp:759-776 | the next blocks of the current chunk, or 0 exactly when they do not fit |
| ChunkAllocator.NoBlockLeft | library/lfalloc/lf_allocX64.cpp:784-822 | without defragmentation no block is to be had exactly when none is left |
| ChunkAllocator.MapRegion | library/lfalloc/lf_allocX64.cpp:811-819 | fails exactly when the system refuses the region; otherwise just the whole chunks inside it become free and join the list of free chunks |
| ChunkAllocator.SlowAlloc | library/lfalloc/lf_allocX64.cpp:784-822 | terminates with a block of the right size that nobody else has; a region is asked for exactly if the current chunk is full, no chunk is free and, with defragmentation, none is drained; it fails exactly if that request is the one the system refuses, and otherwise, without defragmentation, one block less is left |
| ChunkAllocator.AllocNoCacheMultiple | library/lfalloc/lf_allocX64.cpp:837-851 | 15 adjacent blocks, the next of the current chunk, if they fit, otherwise one block or, exactly when none is to be had, none; none of them in use |
| ChunkAllocator.TakeBlocks | library/lfalloc/lf_allocX64.cpp:855-871 | just the pointers of the first group, none only if the list is empty; the rest of the list stays and the group's block becomes spare |
| ChunkAllocator.StackedAt | library/lfalloc/lf_allocX64.cpp:874-897 | of the groups that are put, the one put first has the first 15 blocks and stands last, and so on; only the one put last may have fewer |
| ChunkAllocator.StackedCount | library/lfalloc/lf_allocX64.cpp:874-897 | there are as many groups as the blocks fill |
| ChunkAllocator.PutBlocks | library/lfalloc/lf_allocX64.cpp:874-897 | all the blocks stand in front of the list afterwards, in groups of 15 and one of fewer, each group before those put earlier, and the groups behind and the other lists do not change; it fails exactly when fewer blocks are left for groups than the groups to put, and otherwise just these are used up |
| ThreadAllocator.BorderRoom | library/lfalloc/lf_allocX64.cpp:1030-1035 | a refill of an empty stack stays above the border if and only if 14 blocks are within the memory per size: so for all sizes of the default table, and not for the two added for YT |
| ThreadAllocator.BorderIs | library/lfalloc/lf_allocX64.cpp:1030-1035 | above the border a stack has as many places as blocks fit both into it and into the memory per size |
| ThreadAllocator.Refill | library/lfalloc/lf_allocX64.cpp:1478-1482 | all but the last block of a refill are stored, the first at the end of the stack and each next one below |
| ThreadAllocator.AllocFor | library/lfalloc/lf_allocX64.cpp:1459-1487 | the top of the stack if there is one; otherwise the first group of the list, or else 15 adjacent blocks or one, all but the last of them stored; it fails exactly when stack and list are empty and no block is to be had, and every other block is still in one place |
| ThreadAllocator.FreeFor | library/lfalloc/lf_allocX64.cpp:1544-1560 | above its border a stack gets the block on top; at the border or below, its first 15 blocks, or all if fewer, become one group in front of the list, and the block comes on top of the others; it fails exactly when that needs a group's block and none is left |
| ThreadAllocator.OutOnce | library/lfalloc/lf_allocX64.cpp:1446-1487 | a block that is out is out once and is in none of the allocator's own places |
| ThreadAllocator.TAllocator.LFAlloc | library/lfalloc/lf_allocX64.cpp:1422-1488 | the block returned has the size asked for, was held by nobody, and all blocks held keep their size; it is the top of the thread's stack if there is one, and then nothing else changes; there is none exactly when the thread's stack and the list are empty (of which a thread that is stopping looks at neither) and no block is to be had |
| ThreadAllocator.TAllocator.LFFree | library/lfalloc/lf_allocX64.cpp:1504-1566 | exactly this block leaves the callers' hands and the null pointer is ignored; it comes on top of the thread's stack, from which the first 15 blocks, or all, have become a group of the list if it was at its border, or becomes a group itself for a thread without stacks; it fails exactly when a group is needed and no block is left for it |
| ThreadAllocator.TAllocator.MoveSingleThreadFreeToGlobal | library/lfalloc/lf_allocX64.cpp:1120-1128 | all stacks of the thread end up empty and no block is lost; it fails exactly when fewer blocks are left for groups than the groups that the stacks fill |
| Splitting.W2Convex | library/grid_creator/binarization.cpp:72-73 | weight squared is convex in the weight |
| Splitting.LastMinIsLast | library/grid_creator/binarization.cpp:155-168 | the scan with <= ends at a cheapest choice, and every later choice costs more |
| Splitting.Monge | library/grid_creator/binarization.cpp:155-168 | the quadrangle inequality of the costs, from convexity |
| Splitting.ChoiceMonotone | library/grid_creator/binarization.cpp:502-518 | the last cheapest choice never moves left from column to column, so the two boxes suffice |
| Splitting.OptimalNext | library/grid_creator/binarization.cpp:132-168 | the next row's errors are least over all splits into one group more |
| Splitting.AchievesNext | library/grid_creator/binarization.cpp:550-560 | following the choices of any modelled mode back gives a split that costs exactly the stored error |
| SplitRows.Base2Row | library/grid_creator/binarization.cpp:155-168 | the plain mode fills a row with the defining choices and errors |
| SplitRows.BoxSplits | library/grid_creator/binarization.cpp:502-518 | the choices of both half boxes lie in the choice ranges that are pushed |
| SplitRows.DaCRow | library/grid_creator/binarization.cpp:477-521 | the work queue empties, and every column has exactly the choice and error of the plain mode |
| SafeRows.Bracketed | library/grid_creator/binarization.cpp:229-242 | the best between the two scans' stops is the best of all, also when they have crossed |
| SafeRows.Forward | library/grid_creator/binarization.cpp:185-199 | each column stops where no step before costs more and the next costs more |
| SafeRows.Inverted | library/grid_creator/binarization.cpp:201-216 | each column stops where no step to the right costs less |
| SafeRows.SafeRow | library/grid_creator/binarization.cpp:184-242 | for integer convex penalties every error is the plain mode's minimum, with a choice that reaches it |
| RlmRows.W2Steep | library/grid_creator/binarization.cpp:72-73 | weight squared has all that mode E_RLM2 is proved to need |
| RlmRows.GrowsNext | library/grid_creator/binarization.cpp:338-351 | one more element costs no less than a group of its own, in every row |
| RlmRows.Beyond | library/grid_creator/binarization.cpp:449-455 | choices beyond the column, which the unclipped scans also weigh, cost no less than the column's own |
| RlmColumns.StepColumn | library/grid_creator/binarization.cpp:403-429 | one column of a scan: it ends at the limit or, with room between, at a better choice, and nothing outside the bracket is better |
| RlmColumns.FirstInverted | library/grid_creator/binarization.cpp:353-388 | after the first inverted scan every column is bracketed |
| RlmColumns.ForwardAgain | library/grid_creator/binarization.cpp:395-433 | a later forward scan narrows the brackets of the columns it reaches and leaves the others valid |
| RlmColumns.InvertedAgain | library/grid_creator/binarization.cpp:435-471 | the inverted scan back over them restores the bracket of every column, though it is not clipped |
| RlmColumns.Close | library/grid_creator/binarization.cpp:391-475 | rebuilding ends, with a cheapest choice that lies within the column |
| RlmRows.Rlm2Row | library/grid_creator/binarization.cpp:334-476 | for integer steep penalties, of which an empty group costs nothing or no weight is zero, E_RLM2 computes the errors of the plain mode, with a cheapest choice in each column |
| BestSplits.LastMatch | library/grid_creator/binarization.cpp:540-547 | the last scan finds the first cheapest choice: none is cheaper and every earlier one is dearer |
| BestSplits.ReadBack | library/grid_creator/binarization.cpp:549-560 | the thresholds are the positions the choices lead to |
| BestSplits.SumsStep | library/grid_creator/binarization.cpp:107-111 | the first running sum is the first weight, and each next one is greater by the next weight |
| BestSplits.CostIsPenalties | library/grid_creator/binarization.cpp:132-168 | what the rows minimize are the penalties of the groups' own weights, added up |
| BestSplits.OneEach | library/grid_creator/binarization.cpp:96-103 | with no more weights than groups each element is its own group |
| BestSplits.BestSplit | library/grid_creator/binarization.cpp:82-562 | strictly increasing thresholds below the last element; the penalties of the weights of the groups they make are in all the least of all splits into that many groups; E_Base2 and E_DaC give the same thresholds |
| BestSplits.BestSquares | library/grid_creator/binarization.cpp:72-562 | for the penalty of weight squared the squares of the groups' weights are in all the least of all splits into that many groups, in all four modes, whatever the weights |
| Lcs.LengthIsLongest | library/lcs/README.md:4-5 | the table's last entry is the length of a longest common subsequence: one exists, none is longer |
| Lcs.LengthSymmetric | library/lcs/lcs_via_lis.h:170-174 | swapping the inputs does not change the length |
| Lcs.RowPuts | library/lcs/lcs_via_lis.h:92-106 | replacing lower bounds for the occurrences from right to left makes the row of least end positions of the longer prefix |
| Lcs.LastIsLength | library/lcs/lcs_via_lis.h:108 | after all rows the number of entries is the length of a longest common subsequence |
| LcsMemory.BuildIndex | library/lcs/lcs_via_lis.h:76-86 | for each letter of s1 its positions in s2, in order and all of them |
| LcsMemory.LowerBound | library/lcs/lcs_via_lis.h:98 | the first place whose entry is not less |
| LcsMemory.UpperBoundGreater | library/lcs/lcs_via_lis.h:145 | the first entry of a falling pile that is less |
| LcsMemory.SupportedPut | library/lcs/lcs_via_lis.h:118-131 | whatever goes on a pile rests on a smaller position in the pile before it |
| LcsMemory.TopRests | library/lcs/lcs_via_lis.h:144-150 | hence the read-back always finds an entry, so its check never fails |
| LcsMemory.PickedSpells | library/lcs/lcs_via_lis.h:140-152 | the positions picked increase and spell a subsequence of s1 |
| LcsMemory.Context.Measure | library/lcs/lcs_via_lis.h:88-108 | the branch without a result returns the length of a longest common subsequence |
| LcsMemory.Context.Make | library/lcs/lcs_via_lis.h:109-158 | the branch with a result returns it too, and leaves increasing s2 positions of that number that spell a subsequence of s1 |
| LcsMemory.MakeLcs | library/lcs/lcs_via_lis.h:163-177 | with or without the swap, the result is a longest common subsequence of both inputs |
| LcsMemory.MeasureLcs | library/lcs/lcs_via_lis.h:184-187 | the length alone, with or without the swap |
| Diff.EditsAreTheRest | library/diff/diff.h:30-88 | common and edited parts together account for both inputs |
| Diff.ChunksAreCommon | library/diff/diff.h:30-88 | the common parts of chunks that rebuild both inputs are a common subsequence |
| Diff.FewestEdits | library/diff/diff.h:30-88 | no chunks that rebuild both inputs have fewer edits than those whose common parts are a longest common subsequence |
| Diff.NothingMoreInCommon | library/diff/diff.h:30-88 | where as much as possible is kept, no letter stands on both sides of a chunk |
| Diff.AheadJump | library/diff/diff.h:63-65 | after jumping to the first occurrence in s1, the rest of the common subsequence is still ahead in both inputs |
| Diff.AheadFollow | library/diff/diff.h:67-69 | following equal letters instead of the recorded positions keeps it ahead |
| Diff.InlineDiff | library/diff/diff.h:30-88 | terminates; left and common parts rebuild the left input, right and common parts the right one, and the common length is the longest possible, with or without the swap; every chunk but the last has a common part, every one but the first an edit, and no letter stands on both sides of a chunk |
| BinFeatures.FeatureOf | cmicot/lib/bin_feature_set.cpp:121-125 | the feature whose range holds the bin |
| BinFeatures.RangeIs | cmicot/lib/bin_feature_set.cpp:135-142 | a feature's bins are those from its start up to the start of the next |
| BinFeatures.RangesDisjoint | cmicot/lib/bin_feature_set.cpp:135-142 | every bin belongs to one feature |
| BinFeatures.ExtremeElementBy | cmicot/lib/algorithm.h:9-28 | the first of the elements of extreme value |
| PlainScorer.DoMaximizePhase | cmicot/lib/miximizers.cpp:17-44 | each helper is the first unused bin of greatest value after those before; fails exactly when bins are too few |
| PlainScorer.DoMinimizePhase | cmicot/lib/miximizers.cpp:46-74 | each opponent is the first unused bin of least value against the helpers that have joined; fails exactly when bins are too few |
| PlainScorer.GetBinScore | cmicot/lib/bin_score.cpp:37-50 | both phases over the right bins, the first of equal bins each time, the last opponent's value as score, and the exact cases of failure |
| GreedyRuns.RunUnique | cmicot/lib/miximizers.cpp:17-74 | without ties there is one greedy run, whether or not the bin itself may be its helper |
| GreedyRuns.RunSpelled | cmicot/lib/miximizers.cpp:17-74 | helper s has the information of the bin with the helpers before it and itself as condition, opponent s that of the bin and the helpers before s with the opponents up to itself, and no unused bin seen is better |
| CachingScorer.MaxStateKeeps | cmicot/lib/caching_bin_scorer.cpp:46-80 | a cached helper that none of the last bins beats is unbeaten by all bins |
| CachingScorer.MaxStateChanges | cmicot/lib/caching_bin_scorer.cpp:71-78 | a helper that is beaten is replaced by the best of all, and the opponents that may stay are those up to the same step |
| CachingScorer.MinStands | cmicot/lib/caching_bin_scorer.cpp:100-114 | a cached opponent that none of the last bins is below is below all bins |
| CachingScorer.Repair | cmicot/lib/caching_bin_scorer.cpp:31-128 | both loops turn a run greedy over the bins known into one greedy over these and the bins enabled last; when the latter are known already they change nothing and pass their checks if and only if in every step some bin enabled last is unused |
| CachingScorer.TCachingBinScorer.Evaluate | cmicot/lib/caching_bin_scorer.cpp:16-138 | the entry becomes a run over the bins on with its score, greedy over the bins it was in order for and those enabled last, so over all bins on if these are all; other entries stay, and it throws exactly for a wrong index or too few bins; a check fails only if a bin enabled last was on before, and, when the entry is in order for the bins enabled last, exactly if `Again` does not hold |
| CachingScorer.TwiceFails | cmicot/lib/caching_bin_scorer.cpp:52-69 | an input for which the second of two equal evaluations fails a check: the only bin enabled last is the first helper |
| CachingScorer.LastIsHelper | cmicot/lib/caching_bin_scorer.cpp:52-69 | so it is for every entry with at least two helpers |
| CachingScorer.EnoughLast | cmicot/lib/caching_bin_scorer.cpp:52-114 | with as many bins enabled last as steps an equal evaluation passes the checks |
| CachingScorer.MaxStep | cmicot/lib/caching_bin_scorer.cpp:46-80 | the body of the first loop: the best unused bin takes the step if it beats the cached one, and all that depends on the step is unset; a check fails exactly if there is none |
| CachingScorer.SkippedRound | cmicot/lib/caching_bin_scorer.cpp:46-80 | an input on which a step looked for afresh takes the bin enabled last although another bin on is better |
| CachingScorer.CachedIsPlain | cmicot/lib/caching_bin_scorer_ut.cpp:31-40 | without ties the entry equals the plain scorer's result step by step, with the score divided by the label's entropy |
| Selection.FeatureSelection | cmicot/lib/selection.cpp:61-87 | different non-empty features in greedy order, all of them exactly when none is empty; each but the first is the one of the best bin by scores with as many steps as bins are on, or as evaluation steps if these are fewer |
| Selection.ScoreSpelled | cmicot/lib/bin_score.cpp:37-50 | a bin's score is its information with k - 1 helpers, given k opponents, all of them bins on but for the bin as its own helper |
| Selection.FastFeatureSelection | cmicot/lib/selection.cpp:23-59 | different non-empty features, as many as wanted exactly when that many are non-empty, at least one; they are the first of the same order, with the same numbers of steps, if the feature selected first has as many bins as there are evaluation steps, or for two features anyway |
| Selection.OrderUnique | cmicot/lib/selection.cpp:48-58 | the greedy order is unique |
| Selection.FastReportsPrefix | cmicot/lib/selection.cpp:23-87 | of two reports in the order of selection the shorter is a prefix of the longer |
| Selection.SelectBoth | cmicot/lib/selection.cpp:23-87 | run on the same features, none empty and without ties, the fast selection reports exactly the first features that the plain one reports, as many as wanted, if the first feature has as many bins as evaluation steps or at most two are wanted |
| Selection.NoRepeats | cmicot/lib/selection.cpp:79-86 | no feature is reported twice |
| Selection.AllReported | cmicot/lib/selection.cpp:61-87 | a report of full length names every feature |
| Entropy.PackedEqual | cmicot/lib/entropy_calculator.cpp:29-39 | two rows have equal packed values if and only if every bin agrees on them |
| Entropy.OrderIrrelevant | cmicot/lib/entropy_calculator.cpp:29-39 | the multiset of counts depends only on which bins were added, not on their order |
| Entropy.WordIsRemainder | cmicot/lib/entropy_calculator.cpp:11-18 | 64-bit sums, differences and doubles are remainders |
| Entropy.PatternDecides | cmicot/lib/entropy_calculator.cpp:41-51 | the counts depend only on which rows are equal |
| Entropy.SpectrumHas | cmicot/lib/entropy_calculator.cpp:11-18 | the counts hold each number as often as there are values found that often |
| Entropy.AddBin | cmicot/lib/entropy_calculator.cpp:29-39 | shifting in 64-bit words packs the rows exactly for up to 64 bins, and it fails exactly for a bin of another size or one too many |
| Entropy.CountValues | cmicot/lib/entropy_calculator.cpp:11-18 | with the range as a 64-bit word, either counter gives the entropy of the counts, provided the places of the chosen one take all values |
| Entropy.GetEntropy | cmicot/lib/entropy_calculator.cpp:41-51 | the entropy of the counts, unless both the least and the greatest word occur, when the range wraps to 0 and there are no places; this takes 64 bins |
| Entropy.GetEntropyWithExtraBin | cmicot/lib/entropy_calculator.cpp:53-65 | doubling in 64-bit words, with room for the bin it sees the counts that adding it would leave, unless the range wraps, which takes 63 bins and both extremes; with 64 bins it sees them without the first; it fails for a bin of another size |
| Entropy.FirstBinLost | cmicot/lib/entropy_calculator.cpp:60-62 | a calculator of 64 bins looks one bin ahead: what it sees is the rows of the other 63 and the new one, the first bin is lost, which the code does not check |
| Entropy.InformationOrder | cmicot/lib/cmi_calculator.cpp:12-35 | the value depends only on which bins are first, second and condition |
| Entropy.InformationLaws | cmicot/lib/cmi_calculator.cpp:12-35 | whatever is made of the counts: first and second may be exchanged, the information is 0 when the second bins are in the condition, and that of the first bins with themselves is what they add to the entropy of the condition |
| Entropy.ChainRule | cmicot/lib/cmi_calculator.cpp:12-35 | the information of more second bins is that of the first of them and, with these in the condition, that of the others |
| Entropy.TCmiCalculator.GetValue | cmicot/lib/cmi_calculator.cpp:33-35 | the conditional mutual information of the bins added, in whatever order, unless a range wraps, which needs 64 bins |
| Entropy.TCmiCalculator.GetValueWithConditionBin | cmicot/lib/cmi_calculator.cpp:29-31 | with room for the bin, what GetValue would give after AddConditionBin, unless a range wraps, which needs 63 bins |
| Utf.SafeRead | util/charset/utf8.h:147-191 | accepts the same bytes as the other reader, with the same rune, length and kind of error |
| Utf.CutOff | util/charset/utf8.h:147-191 | input is reported to end within a symbol exactly if the lead byte announces more bytes than there are |
| Utf.EncodeThenRead | util/charset/utf8.h:320-346 | what is written is read back, whatever follows |
| Utf.ReadThenEncode | util/charset/utf8.h:197-264 | whatever is read is the only encoding of its rune: no overlong form is accepted |
| Utf.EncodeOrder | util/charset/utf8.h:320-346 | UTF-8 keeps the order of the runes, which leaves only one encoding with these lengths and forms |
| Utf.ReadThenUnits | util/charset/wide.h:103-118 | a unit or pair that is read is the only form of its character |
| Utf.UnitsOrder | util/charset/wide.h:103-118 | UTF-16 keeps the order of characters beyond 0xFFFF, and the lead unit tells which 1024 of them |
| Utf.Utf8ToWide | util/charset/wide.h:240-257 | the loop converts symbol by symbol up to the first broken one |
| Utf.Utf8ToWideRobust | util/charset/wide.h:240-257 | the robust loop converts everything, a broken byte into one replacement character |
| Utf.RobustStep | util/charset/wide.h:240-257 | a byte at which no symbol begins becomes one replacement character and reading goes on after it; without broken symbols both loops give the same |
| Utf.WideToUtf8 | util/charset/wide.h:344-355 | the loop converts symbol by symbol, lone surrogates into the replacement character |
| Utf.LoneSurrogate | util/charset/wide.h:344-355 | a surrogate alone becomes the three bytes EF BF BD |
| Utf.WideFits | util/charset/wide.h:288-298 | no more units than bytes, so the buffer of the conversion suffices |
| Utf.Utf8Fits | util/charset/wide.h:357-359 | at most four bytes a unit |
| Utf.CharactersRoundTrip | util/charset/wide.h:240-257 | text of characters keeps its UTF-8 form through UTF-16 |
| Utf.WideRoundTrip | util/charset/wide.h:344-355 | UTF-16 survives UTF-8 if and only if its surrogates are paired |
| Utf.Utf8RoundTrip | util/charset/wide.h:240-257 | UTF-8 that decodes survives UTF-16 if and only if it holds no encoded surrogate, which the readers accept |
| JsonPrettifier.CompactIsCanonical | library/json/json_prettifier.cpp:120-152 | without layout the rendered text is the canonical one: one comma between siblings, a colon after each key |
| JsonPrettifier.LayoutIsBlank | library/json/json_prettifier.cpp:120-152 | with layout as well, the text is the canonical one but for white space |
| JsonPrettifier.LinesIndented | library/json/json_prettifier.cpp:120-135 | every line is indented by the number of brackets open before it, a closing bracket in front of it not counted |
| JsonPrettifier.LinesCounted | library/json/json_prettifier.cpp:120-135 | each child down to the greatest level, and each closing bracket after a child above it, has a line of its own, and nothing else has |
| JsonPrettifier.Blanks | library/json/json_prettifier.cpp:137-152 | one blank on either side of a colon, and one between brackets with nothing inside |
| JsonPrettifier.OnOneLine | library/json/json_prettifier.cpp:125-128 | blanks instead of line breaks below the greatest level |
| JsonPrettifier.TPrettifier.Feed | library/json/json_prettifier.cpp:120-260 | the events of any value, wherever the writer stands, write exactly its rendered text, compact or not, return to the same level and leave one comma held; only a string after another value at level 0 outside compact mode comes before the comma held |
| JsonPrettifier.PlaceOfText | library/json/json_prettifier.cpp:186-201 | a text written past the held character is in its place if and only if it consists of that character only |
| JsonPrettifier.CommaAfterBoth | library/json/json_prettifier.cpp:122-201 | a number and a string on one writer come out with the comma after both |
| JsonPrettifier.PrettifyTwo | library/json/json_prettifier.cpp:122-201 | two values on one writer: the comma stands between them if and only if the second is not a string, or compact mode is on, or the string's text is all commas |
| JsonPrettifier.TPrettifier.OnClose | library/json/json_prettifier.cpp:226-256 | drops a held comma, keeps a held opening bracket, and fails exactly at level 0 |
| JsonPrettifier.Prettify | library/json/json_prettifier.cpp:263-278 | one value gives its text, canonical in compact mode |
| CppLexer.TImpl.Step | library/cppparser/parser.cpp:99-356 | one character leaves unchanged what will be handed on in all, as reading token by token gives it; none gets lost, every fragment begins where the last ended, and comment fragments are comments |
| CppLexer.TImpl.Action | library/cppparser/parser.cpp:369-406 | hands on the pending text with its offset; the error branch is out of reach of the input loop |
| CppLexer.TImpl.Write | library/cppparser/parser.cpp:96-357 | what is handed on is exactly what reading the piece token by token gives, and fragments, pending text and an undecided slash together are the input so far |
| CppLexer.Tokenize | library/cppparser/parser.cpp:65-67 | the whole input at once: the fragments are those of reading token by token, and together with the pending text they are the input |
| CppTokens.FirstEnd | library/cppparser/parser.cpp:119-343 | the text of each state runs up to the first place that ends it: a literal to its first quote that is not escaped, a line comment to the line end, a block comment to its first end mark, a directive to the first line end that is not continued, and code to the first quote, directive or comment |
| CppTokens.Stays | library/cppparser/parser.cpp:119-343 | a character that ends nothing joins the pending text and changes nothing else in what will be handed on |
| CppTokens.CodeOpens | library/cppparser/parser.cpp:119-146 | in code a double quote begins a string, a single one a character and a hash a directive, and the code before goes on |
| CppTokens.CommentOpens | library/cppparser/parser.cpp:150-174 | after a slash, another begins a line comment and a star a block comment, and what was before goes on |
| CppTokens.LiteralStep | library/cppparser/parser.cpp:234-296 | a literal ends at its quote unless a backslash that is not escaped is before it, and in a directive it stays part of that |
| CppTokens.DirectiveStep | library/cppparser/parser.cpp:298-343 | a directive ends with its line unless the line end is escaped; a literal in it belongs to it |
| CppLexer.TImpl.Finish | library/cppparser/parser.cpp:69-93 | fails exactly with pending text of an unfinished comment or literal; a lone final slash is dropped |
| CppLexer.WriteAll | library/cppparser/parser.cpp:65-67 | the text accounted for does not depend on how the input is cut |
| CppLexer.FragmentsAreSlices | library/cppparser/parser.cpp:28-31 | each fragment is the piece of the input at its offset |
| CppLexer.CloseComment | library/cppparser/parser.cpp:194-232 | a block comment handed on ends at its first end mark |
| Calendar.YearStep | util/datetime/systime.cpp:57-58 | the standard's count of leap days grows by the length of each Gregorian year, for all years |
| Calendar.Cycle | util/datetime/systime.cpp:59 | the calendar repeats after 400 years |
| Calendar.Alternate | util/datetime/systime.cpp:90-92 | months of 31 and 30 days alternate to July and again from August, but for February |
| Calendar.Known | util/datetime/systime.cpp:89-134 | time 0 is midnight on Thursday, 1 January 1970, and 951868799 the last second of Tuesday, 29 February 2000 |
| Calendar.GmTimeR | util/datetime/systime.cpp:89-134 | for every integer time, fields in range that fit together and stand for that time by the standard's formula, with weekday and day of the year |
| Calendar.TimeUnique | util/datetime/systime.cpp:89-134 | each time has only one calendar form |
| Calendar.TimeGMInverts | util/datetime/systime.cpp:67-87 | TimeGM gives back the time for 1970 to 2099 and -1 for all other years |
| Calendar.CoveredYears | util/datetime/systime.cpp:72-74 | those years are exactly the seconds from 0 to 4102444799 |

## Left out

- LockFreeList: `GetWholeList` and `ReturnWholeList` beside running calls, which the code itself calls problematic; counters are unbounded, so no wrap-around of the 64-bit counter; memory order is sequentially consistent; termination is claimed only for a call that is not disturbed, the loops are lock-free at best.
- ThreadAllocator: calls are atomic and a free list is last in, first out; large blocks, the table from byte size to size index, debug tags, statistics and the abort after 0x20000 free chunks are left out. The allocator's globals are one value that the methods replace, so aliasing of group memory is expressed by ownership, not by addresses in a byte array.
- ThreadAllocator.TAllocator.MoveSingleThreadFreeToGlobal: the index is reset before the blocks are put on the list, not after, since calls are atomic; the thread's record is not unlinked.
- ChunkAllocator.MapRegion: the operating system's answers are a given sequence of non-overlapping regions, 0 for a refusal; after a refusal, when the program stops, the heap is not claimed to be in order. The retry loop around `mmap` is not modelled.
- BestSplits: modes `E_Base`, `E_Old_Linear`, `E_Linear`, `E_Linear_2L` and `E_RLM` are heuristic or superseded; the penalties with logarithms and rounding of `double` are not modelled.
- RlmRows.Rlm2Row: the penalty is integer and steep and the weights are integers, as for `W2` on counts, and zero weights are allowed only where an empty group costs nothing; for other penalties the unclipped scans may look at groups of negative weight, about which nothing is claimed.
- RlmColumns.StepColumn: the scan inside a column occurs in the source once forward and twice mirrored; here it is one method used on the column and on its mirror image.
- LcsMemory: the hash table is a map; the memory pool and 32-bit positions are not modelled.
- Diff: the token path over hashes and splitters (`library/diff/diff.cpp`) and the printing are not modelled; `FastStrChr` is first-occurrence search.
- CachingScorer.TCachingBinScorer.Evaluate: when a bin enabled last was on before but the entry is not in order for all of those, the check is only known to pass if `Again` holds. When not all bins on are known or enabled last, because a bin was skipped for a round or more steps are wanted, agreement with the plain scorer is not claimed; `SkippedRound` shows that it fails.
- Selection.FastFeatureSelection: the order of the features from the third on is not claimed when the first has fewer bins than there are evaluation steps, since the number of steps then grows and steps are looked for afresh; the label's entropy is positive.
- Selection: bins are evaluated one after another; each evaluation touches only its own cache entry, which is why the parallel loop may do them at once.
- GreedyRuns: the conditional mutual information is any function of the lists of bins with values above -1 and below 100000; the range is not derived from `Entropy`.
- Entropy: the sum over counts is any function of their multiset; logarithms and the order of adding are not modelled. What a calculator does with a value that has no place, or with 64 bins and one ahead, is not claimed beyond that.
- Utf: bytes and units are numbers and shifts are divisions; the vector instructions, the writer that checks the buffer's end and the pointer forms without an end are not modelled.
- JsonPrettifier: the texts of numbers, keys and strings are given as they are to be written, so escaping and the choice of quotes are not modelled; nor is the parser that makes the events.
- CppLexer: line and column, which only serve the error text, and the sorting of code into words (`TCppSimpleSax`) are not modelled. The state to return to is local to one piece, as in the code, so the kinds of fragments may depend on how the input is cut.
- BinFeatures: the efam and btm scorers, `IsFeatureEnabled` and the lists of enabled features are not modelled.
- Calendar: `int` and `time_t` are unbounded; `tm_isdst`, the zone fields and the Windows functions are not modelled.
