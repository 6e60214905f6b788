# The process address-space engine, verified

This project models the engine of `mm/mmap.c` that keeps the memory mappings of a
process, together with the per-process memory limiter of
`kernel/usac/project3/main.c`, and proves what the engine is for: whatever sequence
of splits, merges, stores and roll-backs an operation goes through, its effect on
the map from pages to mappings is the simple one its documentation promises.

## The state

* An address space (`MmStruct.Mm`) keeps, as the original does, the same facts in
  several places: a tree of ranges (a sorted sequence of `Entry(lo, hi, vma)`), the
  fields of the `Vma` objects, `mapCount`, `totalVm`, `lockedVm` and the commit
  charge. `Valid()` says what `validate_mm` checks (ranges sorted, disjoint,
  non-empty, equal to the fields of their VMAs, the count right), that no VMA is
  there twice and that none is marked as detached. A store into the tree trims what
  it overlaps (`RangeTree.Stored`); the VMA fields are edited by hand. That the two
  agree after every operation is proved, not assumed.
* `Mm.Areas()` is the list of what the VMAs say of themselves. `AreaList.PageAt`
  reads it as a page map: attributes (flags up to VM_SOFTDIRTY, file, policy,
  userfaultfd context, name), page offset, anonymous backing.
* VMA bounds are page numbers; lengths, hints and breaks that a caller passes are
  bytes, rounded with the 64-bit wrap of the original. Flags are one field a bit.
* Every allocation (`vm_area_alloc`, `vma_iter_prealloc`, `anon_vma_clone`,
  `mas_store_gfp`) may fail, a signal may come, and every check that the model does
  not represent (commit limit, RLIMIT_DATA, mlock, LSM, drivers) may refuse, so all
  roll-back paths are proved. The constant `mayFail` of an address space says
  whether this can happen: where it is false the contracts say exactly when an
  operation succeeds.

The methods are imperative and update the objects in place. Each is proved against
functions on area lists (`Cut`, `SplitAt`, `Merged`, `Placed`, `Unmapped`, ...), and
lemmas say what these functions do to the page map and to the page sums.

## The main results

* `vma_merge`: `Merge.VmaMerge` leaves the list `MergeSpec.Merged` in all eight cases
  and nothing else; `MergeProof.MergedCorrect` shows that each maps exactly the
  request, in every field of the areas, and that no page loses or exchanges its
  anonymous backing; `MergeProof.MergesWhen` says, in the same fields, exactly when.
* `munmap`: `Munmap.DoVmiAlignMunmap` removes exactly the pages of the range, or
  leaves every page, counter and detached mark alone.
* `mmap_region`: `Region.MmapRegion` overwrites the page map with the request
  whichever way the range is filled, within RLIMIT_AS; `Region.Granted` says what that
  is in terms of the arguments. `DoMmap.DoMmap` chooses the place, and without
  MAP_FIXED nothing was mapped there.
* brk, stack growth, `vma_modify` and its round trip, `vma_expand`, `vma_shrink`.
* munmap, mmap, brk and stack growth fail, apart from what is not modelled, exactly
  under the conditions that `TooMany`, `FixedGoes`, `ChosenGoes`, `BrkGoes` and
  `MayReach` list; `Outcomes` and `Stack.ReachIs` say the same of pages and fields
  alone.
* The hole searches terminate and return exactly what a walk up, or down, the holes
  between the areas finds (`HoleSpec.Climb` and `HoleSpec.Walk`), which suits the
  search; `HoleSpec.FoundUp` and `HoleSpec.FoundDown` say so of the areas alone. From below that is the lowest place when there is no alignment. From above
  it is never less than a range that no guard gap covers, and the highest place where
  no area lies in another's guard gap; only a limit that has come down to 0 hides it.
* Runs: `Runs.RunAccounted`, `Runs.ChargeConserved`, `RunShape.RunCount`,
  `RunShape.RunsAgree` and `Quota.RunWithinQuota` speak of every run;
  `Calls.Perform` shows that each system call is a step of a run, `Calls.Live` takes
  any sequence of requests from an empty address space to its exit, and
  `Processes.Serve` any number of processes with limits through any calls.
* `AllLocks`: every lock behind an address space is taken exactly once and in the
  locking order, and an interrupt at any point leaves none held.

Where the code and what is said of it differ, the code is followed:

* `acct_stack_growth` charges a growth whether or not the area has VM_ACCOUNT, and
  nothing gives that back. `Runs.ChargeConserved` gives the exact condition under
  which the charge is conserved, `Runs.ChargeLeaks` a run in which it is not.
* `unmapped_area_topdown` computes its new upper limit minus one in unsigned
  arithmetic. A growable VMA that starts within the guard gap of address 0 can bring
  the limit down to 0; the search then returns an address beyond user space, and
  `get_unmapped_area` refuses with ENOMEM without trying from below, although a place
  may exist (`GetArea.WrapHidesPlace`). `HoleSpec.WalkExact` and
  `GetArea.NowhereMeans` say exactly when, for areas that keep out of each other's
  guard gaps; `GetArea.Nowhere` says it for all.
* The gap check of `expand_downwards` compares an unsigned difference and passes
  when the address lies below the previous mapping's end; disjointness rests on the
  look-up (`Stack.GapTestWraps`, `Stack.GrowthMaps`).
* `matus_update_memory_limit` tests an unsigned limit for being negative, so every
  limit passes, and it does not look at usage; `matus_add_memory_limit` reads the
  usage of a process without checking that it has an mm, which the model answers with
  an outcome of its own.

## Model

| member | source | states |
|---|---|---|
| MmStruct.WindowSound | mm/mmap.c:294-342 | when some ranges of the tree are replaced by ranges that equal the fields of their VMAs and nothing else changes, the tree and the structs still agree |
| RangeTree.OverWhole | mm/mmap.c:1041-1043 | storing or clearing over whole ranges replaces exactly these |
| RangeTree.OverFront | mm/mmap.c:2400-2408 | storing the lower part of a split trims the range it comes from and nothing else |
| RangeTree.OverBack | mm/mmap.c:2400-2408 | the same for the upper part |
| RangeTree.OverNextFront | mm/mmap.c:1041-1051 | growing a VMA into the one after it trims that one only |
| RangeTree.OverPrevBack | mm/mmap.c:1044-1051 | growing a VMA into the one before it trims that one only |
| AreaList.CutPages | mm/mmap.c:2530-2679 | removing a range removes its pages from the page map and no other page |
| AreaList.SplitPages | mm/mmap.c:2346-2422 | a split changes no page: not its attributes, its offset or its backing |
| AreaList.SumHeadTail | mm/mmap.c:3504-3514 | cutting an area in two keeps the page sums |
| AreaList.CutCarved | mm/mmap.c:2552-2587 | removing a range after splitting at both its ends is removing it |
| AreaList.CleanAgree | mm/mmap.c:733-757 | what a page map compares is the file, the policy, the userfaultfd context, the anonymous name and every flag but VM_SOFTDIRTY, no more and no less |
| AreaList.LaidOverIs | mm/mmap.c:876-1065 | page maps that differ by a request have areas that differ by it, field by field |
| Adjust.CompleteRemove | mm/mmap.c:523-593 | a VMA merged away is marked as detached and discounted, its backing having been taken over |
| Adjust.DupVma | mm/mmap.c:2362-2384 | a copy shares the backing of the original, or there is none |
| Adjust.SplitVmaUnchecked | mm/mmap.c:2346-2422 | the two parts keep every page and its offset, the new VMA being the one asked for; or nothing changes |
| MergeProof.MergedCorrect | mm/mmap.c:824-1065 | in all eight cases every area that holds a page of the request agrees with it in file, policy, userfaultfd context, name, offset and each flag but VM_SOFTDIRTY, every other page is in an area that agrees in the same with the one that held it, no page is lost or gained, and anonymous backing is neither lost nor exchanged |
| MergeProof.MergesWhen | mm/mmap.c:733-822 | there is a merge exactly when the request is not special and a neighbour at its very end or start has the same file, policy, context, name, and flags but VM_SOFTDIRTY, an offset that goes on, a backing that fits, and no close hook where it would be removed |
| MergeProof.ClonedTakesNothing | mm/mmap.c:759-770 | a VMA whose backing has more in its chain than its own, as after a fork, takes no request without a backing, on either side |
| MergeProof.MappedLays | mm/mmap.c:876-1065 | mapping a request over a page map lays it over the areas, and keeps every backing |
| MergeProof.AbsorbCase | mm/mmap.c:948-1011 | letting one area take the place of several maps exactly the request when it continues each of them |
| MergeProof.ShiftCase | mm/mmap.c:979-994 | moving the boundary between two areas maps exactly the request |
| MergeProof.Case1 | mm/mmap.c:949-954 | joining two areas across a hole |
| MergeProof.Case2 | mm/mmap.c:967-968 | extending the predecessor into a hole |
| MergeProof.Case3 | mm/mmap.c:1000-1003 | extending the successor into a hole |
| MergeProof.Case4 | mm/mmap.c:989-994 | the successor takes the end of the predecessor |
| MergeProof.Case5 | mm/mmap.c:979-984 | the predecessor takes the front of the area at the request |
| MergeProof.Case6 | mm/mmap.c:955-966 | predecessor and successor are joined over the area between them |
| MergeProof.Case7 | mm/mmap.c:970-984 | the predecessor takes the whole of the area at the request |
| MergeProof.Case8 | mm/mmap.c:1004-1009 | the successor takes the whole of the area at the request |
| MergeProof.HolderSpans | mm/mmap.c:945-1055 | in every case the VMA that is returned contains the request |
| Merge.LookNext | mm/mmap.c:908-932 | the look-up at the end of the request decides the merge with the successor; when it finds the predecessor itself, the request lying inside it, it never merges |
| Merge.FindNeighbours | mm/mmap.c:905-932 | the two tests made on the VMAs found are the tests on the list |
| Merge.MergeAcrossHole | mm/mmap.c:948-954 | case 1 in place, or nothing changes, any backing taken over having been given back |
| Merge.DupFromEither | mm/mmap.c:954-966 | the backing of case 6 comes from the successor or else from the area between; a failure leaves all backings as they were |
| Merge.MergeOverCurr | mm/mmap.c:955-966 | case 6 in place, or nothing changes |
| Merge.MergeIntoPrev | mm/mmap.c:967-984 | cases 2 and 7 in place; a close hook on the area to be removed prevents case 7 |
| Merge.MergePartOfCurr | mm/mmap.c:979-985 | case 5 in place, or nothing changes |
| Merge.MergePartOfPrev | mm/mmap.c:989-994 | case 4 in place, or nothing changes |
| Merge.MergeIntoNext | mm/mmap.c:1000-1010 | cases 3 and 8 in place, or nothing changes |
| Merge.VmaMerge | mm/mmap.c:876-1065 | the merge leaves the list the cases say, keeps tree, structs and count in agreement, lays the request over the areas field by field with backing surviving, and returns the VMA it is in; with NULL it has changed nothing; with memory it merges if and only if the fields and backings of the neighbours allow it |
| Expand.DupAnonVma | mm/mmap.c:603-624 | the destination takes over the backing of the source if it has none; undoing it, or its failure, restores the list |
| Expand.UnlinkAnonVmas | mm/mmap.c:1057-1059 | a backing that was taken over in vain is given back |
| Expand.MoveOver | mm/mmap.c:1037-1043 | the VMA takes the window, the other VMAs of it leave the tree, and tree and fields agree |
| Expand.Regrow | mm/mmap.c:1027-1060 | the same with the disposal of the VMAs that gave way, or the state before the backing was taken over |
| Expand.ShiftBoundary | mm/mmap.c:1027-1060 | the boundary of two touching VMAs moves in both directions, in the tree and in the structs, or nothing does |
| Expand.VmaExpand | mm/mmap.c:643-688 | the VMA takes the range, in place of the next VMA if the range ends with it, or nothing changes |
| Shrink.ShrunkenIsCut | mm/mmap.c:699-726 | a shrink that moves the offset along removes the pages taken off and no others |
| Shrink.VmaShrink | mm/mmap.c:699-726 | the tree range and the fields shrink together, or nothing changes |
| Modify.SplitVma | mm/mmap.c:2428-2435 | the split; apart from memory it fails exactly when map_count is at its limit |
| Modify.VmaModify | mm/mmap.c:2450-2483 | the range is merged as the cases say, the areas then having the flags, policy, context and name passed, and file and offset as before, in the range and what they had elsewhere; or it is a VMA of its own; a failure leaves every page and comes only of memory or of splits that map_count has no room for; map_count does not rise above its limit |
| Modify.InsideNeverMerges | mm/mmap.c:2450-2483 | a change strictly inside a VMA never merges |
| Modify.ChangeBackRestores | mm/mmap.c:2346-2483 | changing the flags of an interior range and changing them back restores the single VMA, its bounds, offset, flags and the count, by case 6 |
| Munmap.TrimStart | mm/mmap.c:2552-2566 | the lower split; a range inside one VMA is refused exactly when map_count is at its limit |
| Munmap.TrimEnd | mm/mmap.c:2574-2579 | the split at the end of the range, which keeps what was gathered |
| Munmap.MarkNext | mm/mmap.c:2580-2589 | the next VMA is marked and its locked pages counted |
| Munmap.Gather | mm/mmap.c:2572-2609 | exactly the VMAs of the range are marked as detached and no other; a failure may come at any point |
| Munmap.Reattach | mm/mmap.c:2666-2672 | the rollback takes back every mark it was given and changes no page |
| Munmap.RemoveMt | mm/mmap.c:2299-2315 | the total and the charge give back exactly the pages, and the VM_ACCOUNT pages, of the VMAs removed |
| Munmap.WindowIsCut | mm/mmap.c:2552-2640 | what lies between the two splits is exactly what removing the range removes, in the list and in the sums |
| Munmap.CommitMunmap | mm/mmap.c:2634-2658 | past the point of no return the window leaves the tree, the count and all counters |
| Munmap.Isolate | mm/mmap.c:2552-2636 | everything that can fail: the range gathered, or the state as before with extra splits at most |
| Munmap.MerelySplitSame | mm/mmap.c:2666-2678 | the extra splits a failure leaves are invisible in the page map and in the sums |
| Munmap.DoVmiAlignMunmap | mm/mmap.c:2530-2679 | on success exactly the pages of the range leave the map and the counters; on failure every page, counter and detached mark is as before; a success ends at or below the count it started with or the limit; apart from memory it fails if and only if it would split one VMA in two with map_count at its limit |
| Munmap.DoVmiMunmap | mm/mmap.c:2697-2723 | the byte range is rounded up; empty, unaligned and too long ranges are refused with no change; apart from memory it succeeds if and only if the range is valid and that limit does not apply |
| MmapSpec.PlacedMaps | mm/mmap.c:2786-2822 | placing a mapping in a hole, joined with the neighbours it may join, maps exactly the request |
| MmapSpec.PlacedSum | mm/mmap.c:2947-2955 | and adds its pages to each sum it counts in |
| Mmap.MayExpandVm | mm/mmap.c:3479-3502 | pages are refused exactly when they would exceed RLIMIT_AS, apart from limits not modelled |
| Mmap.PagesInBounded | mm/mmap.c:2757-2774 | what a range would unmap is no more than its length, so the subtraction never wraps |
| Mmap.CountVmaPagesRange | mm/mmap.c:380-395 | the loop counts exactly the pages that unmapping the range removes |
| Region.WithinLimit | mm/mmap.c:2757-2770 | the limit check decides exactly on the size after the replacement |
| Region.FindJoins | mm/mmap.c:2786-2815 | the tests on the two neighbours are the tests on the list, the backing of the next one counting for the previous one |
| Region.ExpandNeighbour | mm/mmap.c:2817-2822 | the expansion fills the hole, or nothing changes |
| Region.TryExpand | mm/mmap.c:2795-2822 | a neighbour that can be joined is expanded and marked dirty, unless memory fails |
| Region.InsertFresh | mm/mmap.c:2826-2930 | otherwise the mapping gets a VMA of its own |
| Region.PlaceMapping | mm/mmap.c:2786-2945 | whichever way the hole is filled the list is the one with the mapping placed |
| Region.FillHole | mm/mmap.c:2776-2997 | charging, placing and accounting, the charge being given back on failure |
| Region.PlacedOverwrites | mm/mmap.c:2773-2955 | unmapping a range and placing a mapping in it overwrites the page map with the request |
| Region.MappedGrants | mm/mmap.c:2776-2967 | unmapping and placing, whichever neighbours are joined, gives the pages, the flags and the counters that the arguments of the call ask for |
| Region.MmapRegion | mm/mmap.c:2741-2997 | every page of the range is mapped with the offset that goes with it and no file, policy, context or name, with each flag as passed but for VM_ACCOUNT, set exactly for a writable mapping that is not MAP_NORESERVE, VM_LOCKED, not kept by a special one, and VM_SOFTDIRTY, set; every other page is as before; total_vm, locked_vm and the charge move by exactly those pages and the ones replaced, and total_vm is within RLIMIT_AS; a failure leaves the range unmapped or nothing but extra splits; apart from memory it succeeds if and only if the limit allows the size after the replacement and the unmapping succeeds |
| Canonical.CutCanon | mm/mmap.c:2552-2579 | unmapping leaves no two touching areas that could be one |
| Canonical.PlacedCanon | mm/mmap.c:2786-2822 | nor does mapping, when every neighbour that can be joined is |
| Canonical.CanonUnique | mm/mmap.c:785-822 | a list without such areas is determined by its page map |
| Canonical.RemapRestores | mm/mmap.c:2741-2822 | mapping part of an area again with the attributes it has restores the list |
| HoleSearch.EmptyArea | mm/mmap.c:1613-1614 | the lowest vacant range between the limits, and none only if there is none |
| HoleSearch.EmptyAreaRev | mm/mmap.c:1664-1665 | the highest one |
| HoleSpec.AlignUp | mm/mmap.c:1616-1617 | the alignment step stays within the padding and meets the offset |
| HoleSpec.AlignDown | mm/mmap.c:1667-1668 | the same downwards |
| HoleSpec.ClearUnmapped | mm/mmap.c:1689-1697 | a clear range has no page mapped |
| HoleSpec.UntouchedIs | mm/mmap.c:1619-1624 | clear of the guard gap means that the first area that ends above begins above the end of the range, by a guard gap more if it may grow down |
| HoleSearch.UnmappedArea | mm/mmap.c:1595-1635 | the search terminates and its answer is the one the walk up the holes gives; it is inside the limits, aligned, and at least its length, and a guard gap more for an area that may grow down, below the first area that ends above it; there is an answer, at most the alignment higher, whenever a range with twice the alignment to spare is free in that way |
| HoleSearch.GapAbove | mm/mmap.c:1613-1618 | one round of the search from below: the lowest unoccupied range and the VMA above it |
| HoleSpec.ClimbRound | mm/mmap.c:1613-1634 | a round has found what the walk finds, or leaves the walk as it is above the next VMA |
| HoleSpec.ClimbSuits | mm/mmap.c:1689-1697 | what the walk up finds is inside the limits, aligned, and the first area that ends above it begins above its end, by a guard gap more if it may grow down |
| HoleSpec.ClimbLowest | mm/mmap.c:1595-1635 | it is no more than the alignment above any range that has twice the alignment to spare; without alignment it is the lowest place there is, and finding none means there is none |
| HoleSpec.ClimbFound | mm/mmap.c:1595-1635 | the same of the areas alone: inside the limits, aligned and untouched, and not above any untouched range by more than the alignment |
| HoleSearch.GapBelow | mm/mmap.c:1664-1670 | one round of the search from above: the highest unoccupied range between the limits and the VMA above it |
| HoleSearch.UnmappedAreaTopdown | mm/mmap.c:1647-1687 | the search terminates and its answer is the one the walk down the holes gives; in user space it is inside the limits, aligned, and below the first area that ends above it by its length and, for an area that may grow down, a guard gap; no range that all areas above leave free is higher, nor, when areas keep a guard gap below those that may grow down, any that the next one does; an upper limit of 0 makes it the topmost pages of the 64-bit space, which needs an area that may grow down within a guard gap of address 0 |
| HoleSpec.RoundMissing | mm/mmap.c:1664-1665 | a round without a range means that the walk finds none |
| HoleSpec.RoundSpot | mm/mmap.c:1664-1686 | a round whose range is clear has found what the walk finds |
| HoleSpec.RoundRetry | mm/mmap.c:1671-1676 | a round whose range ends in a guard gap leaves the walk as it is under the lower limit |
| HoleSpec.WalkSuits | mm/mmap.c:1689-1697 | what the walk down finds is inside the limits, aligned, and the first area that ends above it begins above its end, by a guard gap more if it may grow down |
| HoleSpec.BeyondMeans | mm/mmap.c:1664-1676 | whatever the areas, only a stack whose guard gap reaches address 0 and below which there is room ends the walk there |
| HoleSpec.WalkReaches | mm/mmap.c:1670-1683 | whatever the areas, the walk finds an address at least as high as every range that no guard gap covers |
| HoleSpec.WalkExact | mm/mmap.c:1647-1687 | where no area lies in another's guard gap the walk finds the highest range that has room, none exactly when there is none, and ends at address 0 exactly when there is none and the lowest area is a stack whose gap reaches down there and hides room |
| HoleSpec.WalkFound | mm/mmap.c:1647-1687 | the same of the areas alone: inside the limits, aligned and untouched, or beyond user space because of a stack near address 0, and not below any range that is untouched or free of all areas above |
| GetArea.TryHint | mm/mmap.c:1738-1745 | a hint is followed exactly when the rounded address suits |
| GetArea.HintIs | mm/mmap.c:1738-1745 | a hint suits exactly when, rounded up to a page, it is not below the minimum, leaves the length within user space, and is untouched |
| GetArea.Given | mm/mmap.c:1732-1745 | too long requests, fixed addresses and hints |
| GetArea.Generic | mm/mmap.c:1722-1754 | the address is a place for the mapping; failing means exactly that the length or the hint does not do and there is none from the base upwards |
| GetArea.GenericTopdown | mm/mmap.c:1770-1820 | the same with the fallback to the search from below, and with the address beyond user space when the walk ends at address 0 |
| GetArea.NowhereMeans | mm/mmap.c:1770-1820 | a refusal means that no range below the base is free of guard gaps; where no area lies in another's gap the refusals are exactly those without a place below the base and with none above TASK_UNMAPPED_BASE or a stack near address 0 that hides room |
| GetArea.NowhereRefuses | mm/mmap.c:1722-1820 | a refusal means that no range from the base upwards is untouched, or that none below it is left free by all areas above |
| GetArea.WrapHidesPlace | mm/mmap.c:1647-1687 | an address space with a usual mmap_base in which a request is refused although the search from below would have found a place |
| GetArea.GetUnmappedArea | mm/mmap.c:1832-1877 | the address is aligned and in user space, equals a fixed one, and otherwise is unmapped and below the next area by the length and, if that may grow down, a guard gap; a hint that is so once rounded up to a page is the address returned; else, from below, it is the lowest such range, and from above none that all areas leave free is higher, nor any such range where areas keep a guard gap below those that may grow down; a fixed address is accepted exactly when it is aligned and the mapping fits; any other request gets ENOMEM exactly when there is nowhere to be found |
| DoMmap.RejectedIs | mm/mmap.c:1238-1272 | the errors EINVAL, ENOMEM and EOVERFLOW that lengths, offsets and counts get, wraps included |
| DoMmap.Choose | mm/mmap.c:1229-1283 | the checks and the address; without MAP_FIXED, or with MAP_FIXED_NOREPLACE, nothing is mapped there; without either it is the page of the hint, raised to the lowest page allowed, if that leaves room, and else what the searches choose; an address is returned exactly when length, offset and count are admissible and the fixed address is free, or there is somewhere to be found; the error of each refusal, EEXIST exactly where MAP_FIXED_NOREPLACE meets a mapping |
| DoMmap.FailedKeeps | mm/mmap.c:1229-1406 | an mmap that fails where nothing was mapped leaves every page as it was |
| DoMmap.NothingInside | mm/mmap.c:2757-2774 | where nothing is mapped the unmapping never fails for want of room, and the limit counts the whole length |
| DoMmap.DoMmap | mm/mmap.c:1229-1406 | a mapping of the rounded length at the address returned, with the pages, flags and counters the arguments ask for and no other page changed; map_count ends at most one above its limit; apart from what is not modelled it succeeds if and only if length, offset, count and limit allow it and the fixed address can be taken, or there is somewhere to be found, with the errors `Choose` gives |
| DoMmap.KsysMmapPgoff | mm/mmap.c:1408-1457 | the same, if and only if the limiter accepts the length as it was passed as well, which it does whenever no entry of the process is below its usage and that length |
| Brk.GrowHeapVma | mm/mmap.c:3174-3193 | the heap's VMA is extended over the new pages, or nothing changes |
| Brk.DoBrkFlags | mm/mmap.c:3150-3229 | the new pages are mapped, charged and counted, or the state is as before; apart from memory it succeeds exactly when RLIMIT_AS and map_count allow |
| Brk.HeapJoinsIs | mm/mmap.c:3174-3193 | the heap is extended in place exactly when the VMA that ends at the old break has the fields of a heap, an offset that goes on, and no backing or one that was not cloned |
| Brk.HeapIsGrown | mm/mmap.c:3150-3229 | the pages a grow adds have every flag of a heap: readable, writable, accounted, the default ones of the process otherwise |
| Brk.RoomIsHole | mm/mmap.c:265-268 | the look-up before a grow guarantees that the pages are unmapped |
| Brk.RoomAbove | mm/mmap.c:265-268 | whether the next mapping begins a page above the new break or higher, and a guard gap more if it may grow down |
| Brk.HeapVma | mm/mmap.c:270-271 | the VMA before the heap grows from, if it ends above the start of the heap |
| Brk.GrowInto | mm/mmap.c:270-276 | the grow once there is room: its pages, its counters, whether the VMA below is extended, and exactly when it fails |
| Brk.CheckBrkLimits | mm/mmap.c:168-178 | the range is refused exactly when a fixed mapping of it would be, for its length or for its end |
| Brk.GrowBrk | mm/mmap.c:258-276 | a grow starts from a hole and leaves a page before the next guard gap; its pages are private anonymous memory, readable, writable and accounted, and no other page changes; apart from memory it succeeds exactly when the range is within the limits, there is that room, and RLIMIT_AS and map_count allow |
| Brk.ShrinkBrk | mm/mmap.c:239-256 | a shrink unmaps exactly the pages between the breaks, or changes no page or counter; it needs a mapping there |
| Brk.MoveBrk | mm/mmap.c:233-291 | the three ways a break moves, with the pages and counters of each and the exact condition for it |
| Brk.SysBrk | mm/mmap.c:181-291 | the new break with all of its pages, readable, writable and accounted, or the old break with nothing changed; the limiter was asked about the difference of the aligned breaks and lets pass whatever leaves the process within its limit; apart from what is not modelled it is refused exactly when the break is too low, the limiter denies it, there is nothing to unmap or no room to grow, or a limit applies; a grow extends the VMA below exactly when that is like the heap |
| Brk.BrkUnlimited | mm/mmap.c:222-231 | the limiter lets pass every brk that leaves the process within its limit, growing or shrinking |
| Brk.BrkPages | mm/mmap.c:181-291 | what each outcome means for the page map; the pages a grow adds were unmapped before |
| Stack.GapTestWraps | mm/mmap.c:2103-2111 | the unsigned gap test passes for every address below the end of the previous mapping |
| Stack.GapOkMeans | mm/mmap.c:2103-2111 | above it, the test passes exactly when the guard gap is clear, or the previous mapping can grow itself or can be neither read, written nor executed |
| Stack.GrowthMaps | mm/mmap.c:2089-2176 | a growth of the first area above the address keeps areas disjoint, maps the new pages as the stack's, and keeps every offset |
| Stack.AnonVmaPrepare | mm/mmap.c:2120-2124 | nothing changes but a null backing |
| Stack.MoveDown | mm/mmap.c:2156-2165 | start, offset and tree range move together |
| Stack.AcctStackGrowth | mm/mmap.c:1950-1982 | the pages are charged if all limits hold, of which RLIMIT_AS is exact |
| Stack.CheckDownwards | mm/mmap.c:2096-2118 | the tests before anything is changed, exactly |
| Stack.PrepareAndGrow | mm/mmap.c:2120-2170 | backing and growth, the growth only when the address is below the VMA, with the counters of the growth or none |
| Stack.ExpandDownwards | mm/mmap.c:2089-2176 | the growth with its counters, or at most a backing prepared; it succeeds exactly when the VMA can grow, the address is above the minimum, the gap test holds, the offset has room and RLIMIT_AS allows |
| Stack.ReachIs | mm/mmap.c:2089-2176 | whether the first area above an address may be grown down to it, in terms of its fields and those of the area before it |
| Stack.FindExtendVma | mm/mmap.c:2222-2239 | the VMA that contains the address is returned, whether it did or has been grown to, and no other; a growth is made exactly when the VMA can grow, the address is above the minimum, the guard gap above the previous mapping is clear unless that can grow or cannot be accessed, the offset has room and RLIMIT_AS allows |
| Stack.GrowPages | mm/mmap.c:2089-2176 | a growth maps exactly the new pages, which were unmapped, with the attributes of the stack and the offsets that go on its own, keeps every other page, and stays the guard gap clear of an accessible area below that cannot grow; without one no page changes but for a backing it did not have |
| Limits.MemoryList.Search | kernel/usac/project3/main.c:28-63 | the loops find the first entry of a process |
| Limits.MemoryList.IsRequestAccepted | kernel/usac/project3/main.c:28-63 | a process without an mm is denied; another is denied if and only if the first entry of its pid has a limit below the unsigned 64-bit sum of total_vm in bytes and the request |
| Limits.DeniedIs | kernel/usac/project3/main.c:46-51 | the comparison that denies a request, made with the first entry of the process |
| Limits.WithinIsAccepted | kernel/usac/project3/main.c:46-61 | a process that stays within its limit, or that has none, is not denied, whatever wraps on the way |
| Limits.MemoryList.AddMemoryLimit | kernel/usac/project3/main.c:66-121 | exactly when an entry is added and what it is, and exactly when each error is returned; for a process without an mm the call does not return |
| Limits.MemoryList.GetMemoryLimits | kernel/usac/project3/main.c:124-168 | the first entries of the list, as many as there is room for, and their number; a failure to write the number comes after the entries were written; exactly which error else |
| Limits.MemoryList.UpdateMemoryLimit | kernel/usac/project3/main.c:171-198 | exactly the entry of the process changes, whatever its usage; exactly which error else |
| Limits.MemoryList.RemoveMemoryLimit | kernel/usac/project3/main.c:201-228 | exactly the entry of the process is removed; exactly which error else |
| Exit.ExitMmap | mm/mmap.c:3279-3343 | as many VMAs are visited as map_count says, and exactly the VM_ACCOUNT pages are given back |
| AllLocks.TakenIs | mm/mmap.c:3676-3715 | testing and setting a mark takes each lock once, and every lock asked for |
| AllLocks.EachOnceInOrder | mm/mmap.c:3717-3754 | taking everything takes each lock that any VMA asks for exactly once, a phase at a time |
| AllLocks.TakenInLockingOrder | mm/mmap.c:3717-3802 | of the areas alone: exactly the mappings and the roots behind them are taken, each once, huge-page mappings before others before roots |
| AllLocks.PhaseTakes | mm/mmap.c:3777-3802 | of the areas alone: what each of the loops adds to the locks held |
| AllLocks.VmLockMapping | mm/mmap.c:3699-3715 | a mapping is locked unless it is held |
| AllLocks.VmLockAnonVma | mm/mmap.c:3676-3697 | the same for a root |
| AllLocks.TakeMappings | mm/mmap.c:3777-3793 | a phase adds mappings of areas that are for huge pages, or are not, and leaves none of these out, in the list order and each once; or it stops at a signal with some of them |
| AllLocks.TakeRoots | mm/mmap.c:3795-3802 | the same for the roots of the chains of all areas that have a backing |
| AllLocks.MmTakeAllLocks | mm/mmap.c:3755-3809 | on success the locks held are exactly the mappings of the areas that map a file and the roots of the chains of those that have a backing, each taken once, the mappings of huge-page areas before those of no such area and all mappings before the roots; a signal at any point leaves none of them held |
| AllLocks.VmUnlockMapping | mm/mmap.c:3833-3845 | a mapping is released if it is held |
| AllLocks.VmUnlockAnonVma | mm/mmap.c:3811-3831 | the same for a root |
| AllLocks.DropArea | mm/mmap.c:3851-3869 | everything behind one VMA is released, each lock once |
| AllLocks.MmDropAllLocks | mm/mmap.c:3851-3869 | each lock held is released exactly once, and none is held after |
| PageCount.SumIsMapped | mm/mmap.c:3504-3514 | the sum of the sizes of the areas is the number of mapped pages |
| PageCount.SameDomainSameSum | mm/mmap.c:3504-3514 | so it depends on which pages are mapped alone |
| Outcomes.PagesInIs | mm/mmap.c:380-395 | what a range would unmap is the number of its pages that are mapped |
| Outcomes.FixedGoesIs | mm/mmap.c:1229-1283 | exactly when a fixed mapping goes through, by length, offset, count, alignment, mapped pages and limit |
| Outcomes.ChosenGoesIs | mm/mmap.c:1722-1754 | exactly when a mapping whose address is chosen from below goes through: the hint is untouched or some range from the base on is, and length, offset, count and limit allow it |
| Outcomes.BrkGoesIs | mm/mmap.c:181-291 | exactly when a brk goes through: within its page; down, when a page there is mapped and unmapping has room; up, when the range and a page beyond are untouched and the limits allow |
| Runs.StepAccounted | mm/mmap.c:294-342 | every step keeps the areas disjoint, the count right and total_vm and locked_vm equal to the page sums |
| Runs.ModifyingAccounted | mm/mmap.c:2450-2483 | a change of attributes keeps total_vm equal to the page sum |
| Runs.RunAccounted | mm/mmap.c:3504-3514 | so does every run of mmap, munmap, brk and stack growth, failures included |
| Runs.StepDrift | mm/mmap.c:2776-2784 | the charge moves with the VM_ACCOUNT pages in every step, but for growths of areas without VM_ACCOUNT |
| Runs.RunCharged | mm/mmap.c:1950-1982 | over a run the charge exceeds those pages by exactly what such growths have added |
| Runs.ChargeConserved | mm/mmap.c:1950-1982 | the charge is conserved if and only if no area without VM_ACCOUNT is grown |
| Runs.ChargeLeaks | mm/mmap.c:1950-1982 | a run from an empty address space in which a growth leaks a page of charge |
| RunShape.StepCount | mm/mmap.c:1270 | a step in which no unmapping fails part-way keeps map_count at most one above its limit |
| RunShape.RunCount | mm/mmap.c:2431 | so does every run of such steps, changes of attributes included |
| RunShape.RunCanon | mm/mmap.c:2786-2822 | over runs of private anonymous mmap and munmap from an empty space no two touching areas are alike |
| RunShape.RunsAgree | mm/mmap.c:2786-2822 | two such runs that end with the same page map end with the same list of VMAs |
| Quota.UsageExact | kernel/usac/project3/main.c:28-63 | usage is total_vm in bytes, without a wrap |
| Quota.QuotaMeans | kernel/usac/project3/main.c:46-51 | within quota means that total_vm in bytes is below the limit plus a page |
| Quota.MappingWithin | mm/mmap.c:1261-1263 | a length that makes the limiter's sum wrap is never mapped, and one that is mapped keeps usage within the limit rounded up to a page |
| Quota.ShrinkWraps | mm/mmap.c:222-231 | the negative request of a shrinking brk wraps back to the resulting usage, exactly when that is not negative |
| Quota.StepWithin | kernel/usac/project3/main.c:28-63 | a step the limiter lets pass keeps the process within its limit |
| Quota.WorldStepWithin | kernel/usac/project3/main.c:93-117 | adding and removing limits and running any process keep every process within its quota, and none has two entries |
| Quota.RunWithinQuota | kernel/usac/project3/main.c:28-121 | so does every run of any number of processes that starts with an empty list: the usage of each limited process is below its limit plus a page |
| Calls.MmapStep | mm/mmap.c:1408-1457 | an mmap is a step of a run that the limiter lets pass, joining every neighbour it can when memory does not fail |
| Calls.MunmapStep | mm/mmap.c:2697-2723 | a munmap is a step of a run |
| Calls.BrkCallStep | mm/mmap.c:181-291 | a brk is a step of a run that the limiter lets pass |
| Calls.FaultStep | mm/mmap.c:2222-2239 | a fault is a step of a run |
| Calls.ModifyStep | mm/mmap.c:2450-2483 | a change of attributes is a step: it maps and unmaps nothing |
| Calls.Perform | mm/mmap.c:181-291 | every request is a step of a run and leaves the address space valid |
| Calls.Live | mm/mmap.c:3279-3343 | from an empty address space through any requests to the exit: what was done is a run, its last state is accounted for, the exit visits every VMA, and what stays charged is what growths without VM_ACCOUNT have leaked |
| Processes.AddLimitStep | kernel/usac/project3/main.c:66-121 | adding a limit is a step of the system of processes, or changes nothing |
| Processes.RemoveLimitStep | kernel/usac/project3/main.c:201-228 | removing a limit is a step of the system of processes, or changes nothing |
| Processes.CallStep | mm/mmap.c:1408-1457 | a request of one process is a step of the system and leaves every other process alone |
| Processes.Serve | kernel/usac/project3/main.c:28-121 | any number of processes with address spaces of their own, served any sequence of limit changes, mmap, munmap and brk calls: what was done is a run of the system, and total_vm in bytes of each limited process ends below its limit plus a page |

## Left out

- The maple tree, its iterator and RCU: the tree is a sorted sequence of ranges, and `find_vma`, `find_vma_prev`, `find_vma_intersection` and `vma_lookup` are functions on it.
- mmap_lock with its killable waits, per-VMA locks and all concurrency: a system call is one step; the limiter's check before the lock is taken is only covered for calls that follow one another.
- Page tables, TLB, huge-page adjustment, uprobes, perf, ksm, khugepaged, notifiers: they have no effect on the VMA state.
- rmap.c: `anon_vma_clone`, `anon_vma_merge` and `unlink_anon_vmas` are represented by their effect on a VMA's backing and chain.
- `find_mergeable_anon_vma`: a VMA without backing that needs one always gets a new one.
- Driver callbacks, `call_mmap` and the merge after it, shmem and hugetlb set-up, mappings of files in `mmap_region`: only private anonymous memory is mapped; files are identities that merging compares.
- The protection and flag switch of `do_mmap`: the VMA flags it arrives at are a parameter, and its refusals may happen or not.
- RLIMIT_DATA, RLIMIT_MEMLOCK, RLIMIT_STACK, the overcommit policy and LSM checks: each may refuse or not, under `mayFail`.
- `data_vm`, `stack_vm` and `exec_vm`: the files that use them are not part of this model.
- The accounting of mprotect, mlock and mremap: it is in other files, so `Runs` allows a change of attributes in runs that speak of map_count only.
- `expand_upwards`, `remap_file_pages`, `copy_vma`, special mappings, the reserve sysctls, shadow-stack gaps, COMPAT_BRK.
- The thp, shmem and architecture variants of `get_unmapped_area`: the generic ones are used.
- The clearing of VM_LOCKED for special mappings, which `mmap_region` does after placing the VMA: `Region.Anonymous` has it in the request; huge-page and DAX mappings, for which it is done too, are files.
- The READ_IMPLIES_EXEC personality, which makes a heap executable, and the VM_MAY bits of a heap: its flags are those of the process's `def_flags` with read, write and account set.
- Brk.SysBrk: requires a break between the start of the heap and the end of user space, as exec sets it up.
- Shrink.VmaShrink: requires that exactly one end moves, as the code warns about anything else.
- Processes.Serve: leaves out faults and updates of limits, which bypass the limiter, and the exit of a process.
- Mmap.MayExpandVm: does not model RLIMIT_DATA, whose counter other files keep as well; the check may refuse or not, under `mayFail`.
- Stack.AcctStackGrowth: does not model RLIMIT_STACK, mlock and the overcommit policy, which may refuse or not, under `mayFail`.
