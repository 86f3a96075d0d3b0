# Verified models from the vendor kernel tree

Dafny models of seven files of the tree that hold real algorithms, and proofs about them. `dafny verify dfyconfig.toml`
checks everything. Code that works by updating state is a class or a method with loops; each such method is proved against
a function or predicate on values, and the laws are proved about those.

## What is modelled

**unifdef** (`scripts/unifdef.c`). `UnifdefExpr` is the three-valued `#if` evaluator, once as functions on token sequences
and once as the class `Evaluator` that moves a cursor and clears the constant-expression flag. `UnifdefSound` gives the
same expressions a grammar and a C value and proves both directions: what is spelled by the grammar evaluates as its tree
does, and what is read without error is spelled by the grammar. `UnifdefMachine` is the 10-state table with its nesting
stack (class `Unifdef`). `UnifdefMeaning` defines conditional inclusion as section 6.10.1 of ISO/IEC 9899:1999 does and
proves that the output of every run without error preprocesses, for every valuation of the unknown symbols, to the same
text as the input. The valuation may depend on the text selected so far, as it does after `#define` and `#undef`. It also
proves that classification has to be right: one condition judged against its value changes the meaning of some program.

**zsmalloc** (`mm/zsmalloc.c`). Page size, slot size and chain length are symbolic, and memory is counted in words of eight
bytes, the allocator's alignment. `ZsLayout` is the geometry of a chain, `ZsPage` the invariant of the free list embedded in
it, `ZsMemory` the loops that thread the list, copy objects and map and unmap them. `ZsPool` and `ZsMoves` are
the heap of zspages and handles as a value, with one predicate (`Keeps`) that says which handles keep their data; `ZsHeap`
is the class that updates it in place, `ZsScan` and `ZsMigrate` its scans and page migration. `ZsAccount`, `ZsBooks` and
`ZsClass` add the fullness lists and the counters: the class `SizeClass` keeps one invariant over every sequence of
malloc, free, deferred free and compaction. `ZsClasses` builds the table of size classes.

**ARM LPAE IO page table** (`drivers/iommu/qcom-io-pgtable-arm.c`). Stage 1 without the contiguous hint. Level `lvl` is
height `3 - lvl`; granules are 4K, 16K or 64K, with 512, 2048 or 8192 entries per table. `LpaeBits` is the descriptor
format of section D8.3 of Arm ARM DDI 0487 with the hidden count, on 64-bit words; it decodes words to the entries the
tables are made of and proves that each bit trick is the operation on entries that the other modules use. `LpaeNum` gives
words their numbers, and `LpaeAddr` says which addresses an entry can hold. `LpaeLevels`, `LpaeTable`, `LpaeMem`,
`LpaeOps`, `LpaeCut`, `LpaeSteps` and `LpaeFree` are the table as a tree over memory pages, the translation it means, and
what each change of it does to that translation; `LpaeBusy` is what can be in the way of a mapping and `LpaeSplit` what a
block split moves. `Lpae` is the class `PageTable` with map, unmap, block split and lookup, `LpaeExamples` inputs on which
it does not do what is asked, `LpaeSize` and `LpaeSg` the choice of page sizes and the scatterlist mapper, and `LpaeRace`
a state machine in which any number of mappers and unmappers interleave wherever the lock is dropped, with
`LpaeRaceExample` a run that goes wrong.

**Fast SMMU path** (`drivers/iommu/dma-mapping-fast.c`, `drivers/iommu/io-pgtable-fast.c`). `FastIova` is the two-bitmap
IOVA allocator, `FastTlb` a state machine of reservations, allocations, mappings, device accesses, unmappings and frees,
`FastReserve` the reservation of PCI windows and IOMMU regions, and `FastTable` the flat entry array and the walk it has to
agree with.

**SMQ shared-memory queue** (`drivers/char/rdbg.c`). `SmqMap` is the run-length block allocator and `Smq` the queue: two
rings and the blocks. The class `SharedQueue` keeps as ghost state what was sent, what was received and what the consumer
holds.

**Scatterlist transform** (`drivers/iommu/qcom-dma-iommu-generic.c`). `SgList` lays out and invalidates a list in place,
`SgSegments` turns it into DMA segments.

`Arith` and `Counting` hold shared arithmetic and counting facts.

## Where the code does not do what one would expect

Each of these is stated exactly. Where a property fails, the condition is one that can be looked at before the call.

- `#if` literals: `strtol` yields a `long` that is stored in an `int`. With literals that fit an `int` plus one literal
  `n`, `ifeval` is right about every line if and only if `n` fits too, or the options are such that it never decides a
  line (`UnifdefSound.SoundIffLiteralFits`). By default it calls `4294967296 == 0 || defined(X)` true
  (`UnifdefSound.DefaultExample`), and the output keeps text that the input does not select
  (`UnifdefMeaning.DefaultProgram`). A program of one conditional keeps its meaning if and only if its condition is not
  judged the wrong way round (`UnifdefMeaning.OneIfIff`).
- `paddr_to_iopte` and `iopte_to_paddr`: the address of a leaf is masked when it is stored, and the offset is or'ed to it
  when it is looked up. A mapping is found where it was put if and only if it is aligned to its blocks and lies wholly
  below 2^48, or 2^52 with 64K granules; `map_pages` checks only the start (`LpaeAddr.ShownIff`,
  `Lpae.PageTable.MapPages`, `LpaeAddr.ShownExample`).
- `arm_lpae_split_blk_unmap`: the pieces of a block are made for addresses that are added up, while the block was looked
  up by or'ing. A piece is found where it was if and only if its number has no bit in common with the number of the piece
  that the block's address names (`LpaeSplit.PieceIff`). Unmapping part of a block leaves the rest alone if and only if
  the block's address has no bits above the piece numbers and below the block, and none in common with the number of a
  piece that is left (`LpaeSplit.TornIff`, and `Lpae.PageTable.Unmap` for the one block that covers the request; where
  none does, only the request goes). Aligned blocks are never in the way (`LpaeSplit.AlignedUndisturbed`). A 2M block
  mapped at the second page of memory: unmapping its first page moves the second to the third page of memory
  (`LpaeExamples.Moved`).
- `arm_lpae_install_table`: the address of a table is stored without `paddr_to_iopte` and read back with `iopte_to_paddr`.
  It comes back if and only if it lies below 2^48, even where leaves reach 2^52 (`LpaeBits.TableBack`,
  `LpaeBits.TableLost`, `LpaeAddr.TableAddrIff`); pages for tables are taken from below.
- `arm_lpae_init_pte`: `EEXIST` if and only if a bigger block covers the address or an entry of the batch is in use. If
  nothing of the request is translated, that is a table with nothing in it (`LpaeBusy.BusyThoughFault`): after mapping and
  unmapping a block, a bigger one cannot be mapped there (`LpaeExamples.StaleTable`).
- `qcom_arm_lpae_unmap_pages`: a page size that is in the page size bitmap but bigger than a block of the first table
  makes the code clear pages of a last-level table and report bigger blocks. The returned range is what was unmapped if
  and only if the size is at most that block, or no last-level table serves the address (`Lpae.PageTable.Unmap`,
  `LpaeExamples.Oversize`).
- `arm_lpae_unmap` of a block frees the tables under it, where a mapper may wait for the lock. That is safe if and only if
  none does (`LpaeRace.UnmapBlockIff`), which holds if none waits to map what is mapped (`LpaeRace.NobodyUnderIf`). If one
  does, its freed table may have become another mapper's by the time it goes on, and an address nobody asked for is then
  translated to its page (`LpaeRaceExample.Astray`).
- `qcom_arm_lpae_map_sg`: the extra pass does not flush the last run if the last entry is empty and begins where the
  pending run ends: the call then succeeds without having mapped that run (`LpaeSg.MapSg`, `LpaeSg.DroppedExample`).
- `fast_smmu_reserve_pci_windows`: the end of a window is its last address, so a page that begins with it is not reserved
  (`FastReserve.WindowComplete`, `FastReserve.WindowExample`).
- `fast_smmu_reserve_iommu_regions`: the bits lie in the bitmap if and only if the region does not end below the aperture
  nor begin a page or more above it; else the unsigned arithmetic wraps around (`FastReserve.RegionInside`,
  `FastReserve.RegionExample`).
- `av8l_fast_map`: a page is found where it was put if and only if it was page-aligned and lies below 2^48
  (`FastTable.MappedBack`, `FastTable.Misplaced`).
- `qcom_iommu_dma_finalise_sg`: what an entry takes up, padding included, is kept in an `unsigned int`. The segments cover
  the addresses of the bytes if and only if all bytes come before entries that take up 2^32 or more, but for one case in
  which the wrong address is not used (`SgSegments.AddrsIff`, `SgSegments.AstrayExample`, `SgSegments.SavedExample`).
- `qcom_iommu_dma_invalidate_sg`: an empty entry comes back with the length its layout gave it, which is not 0 if it did
  not begin a granule or was padded, multiples of 2^32 aside (`SgList.Invalidate`, `SgList.EmptyRoom`,
  `SgList.EmptyExample`, `SgList.EmptyAgain`).
- `smq_blockmap_get` for several blocks: a run is found if there is one. If there is none, the search ends if and only if
  there is exactly one stretch of free blocks, or none and it began where a run of used ones does; two rounds tell
  (`SmqMap.BlockMap.GetMany`). Else it goes on for ever: with two blocks, both taken by one message, the next search for
  two does (`SmqMap.Endless`).
- `__zs_compact` adds up the pages of every source it emptied, also where the page locks could not be had and the zspage
  stays. The sum is the pages given back if and only if every emptied zspage went, as all do where their page locks can be
  had (`ZsClass.SizeClass.Compact`, `ZsClass.ReportedIff`).
- `smq_free` does not check what it is given: the queue stays well formed if and only if the consumer holds it
  (`Smq.SharedQueue.Release`, `Smq.FreedOnlyHeld`).
- `iopte_tblcnt`: a full table of 8192 entries counts 0. The count is therefore proved modulo 2^13, and zero after a
  decrement still means empty (`Lpae.LowCount`).

## Model

| member | source | states |
|---|---|---|
| UnifdefExpr.StrtolToInt | scripts/unifdef.c:853-859 | the low 32 bits of the literal as a long, which saturates; a literal that fits an int is kept |
| UnifdefExpr.Evaluator.SkipArgsAt | scripts/unifdef.c:1083-1104 | the cursor moves exactly past a balanced argument list, or not at all |
| UnifdefExpr.Evaluator.EvalUnaryAt | scripts/unifdef.c:824-908 | verdict, cursor and constant-expression flag are those of the unary level of the grammar |
| UnifdefExpr.Evaluator.EvalTableAt | scripts/unifdef.c:912-945 | the loop over one precedence level computes that level of the grammar, from any cursor position |
| UnifdefExpr.ComputeIfEval | scripts/unifdef.c:951-962 | the line type of an `#if` line is the verdict on its tokens, unknown if the expression is constant and constants are kept |
| UnifdefSound.TreeSound | scripts/unifdef.c:746-777 | a known verdict is the C value of the expression tree for every valuation, under strict and lazy logic |
| UnifdefSound.EvalSpelled | scripts/unifdef.c:912-945 | evaluating the spelling of any expression gives the verdict of its tree and goes on right after it |
| UnifdefSound.EvalReads | scripts/unifdef.c:824-945 | conversely, whatever is evaluated without error is the spelling of an expression of the grammar |
| UnifdefSound.IfEvalSound | scripts/unifdef.c:951-962 | a line called true or false is an expression, and has that C value for every valuation that agrees with the command line |
| UnifdefSound.MisjudgedIsWrong | scripts/unifdef.c:853-859 | for every literal that does not fit an int there is a line that ifeval judges the wrong way round, for every valuation; without -k it mentions a symbol |
| UnifdefSound.DefaultExample | scripts/unifdef.c:951-962 | by default a line that is false is called true |
| UnifdefSound.StrictUnknown | scripts/unifdef.c:746-777 | under strict logic and without symbols given, what mentions a symbol is never decided |
| UnifdefSound.SoundIffLiteralFits | scripts/unifdef.c:853-859 | allowing one more literal keeps every verdict of ifeval right if and only if it fits an int, or no line is ever decided |
| UnifdefMachine.Table | scripts/unifdef.c:458-502 | outside all groups only transitions that need no group occur, and only there does the run end |
| UnifdefMachine.EnterGroup | scripts/unifdef.c:427-451 | opening a group keeps the stack well formed, or is refused |
| UnifdefMachine.SwitchTo | scripts/unifdef.c:427-456 | a later directive of a group keeps the stack well formed |
| UnifdefMachine.StepOk | scripts/unifdef.c:418-502 | every step keeps the stack well formed, and only the bottom state ends the run, with nothing open |
| UnifdefMachine.Unifdef.constructor | scripts/unifdef.c:583-586 | the machine starts outside all groups with empty output |
| UnifdefMachine.Unifdef.Nest | scripts/unifdef.c:526-534 | one group more, inheriting the comment flag, exactly if the depth limit allows it |
| UnifdefMachine.Unifdef.Unnest | scripts/unifdef.c:536-541 | the state of the enclosing group is back |
| UnifdefMachine.Unifdef.Switch | scripts/unifdef.c:507-548 | the innermost group alone changes its state and, where asked, its comment flag |
| UnifdefMachine.Unifdef.FlushLine | scripts/unifdef.c:552-577 | the line is appended to the output and no group changes |
| UnifdefMachine.Unifdef.Enter | scripts/unifdef.c:440-451 | the in-place stacks after opening a group are those of the abstract step |
| UnifdefMachine.Unifdef.Move | scripts/unifdef.c:427-456 | the in-place stacks after a later directive are those of the abstract step |
| UnifdefMachine.Unifdef.Open | scripts/unifdef.c:440-451 | each group-opening transition function does what the abstract machine does |
| UnifdefMachine.Unifdef.Perform | scripts/unifdef.c:418-456 | each transition function does what the abstract machine does, errors included |
| UnifdefMachine.Unifdef.Transition | scripts/unifdef.c:583-596 | one turn through the table is one step of the abstract machine |
| UnifdefMachine.Unifdef.Process | scripts/unifdef.c:583-596 | the loop succeeds exactly when the abstract run finishes, with the same output |
| UnifdefMeaning.TableRel | scripts/unifdef.c:458-502 | every cell of the table is right: the state after a directive describes the group as the preprocessor of the input and that of the output see it |
| UnifdefMeaning.StepSim | scripts/unifdef.c:418-502 | one step keeps the two preprocessors in agreement: same text, and each state describes its group |
| UnifdefMeaning.RunSim | scripts/unifdef.c:583-596 | from any agreeing states, a finished run leaves both preprocessors with the same text and no open group |
| UnifdefMeaning.ClassifyAdmits | scripts/unifdef.c:639-740 | a line is never classified as true or false against its value |
| UnifdefMeaning.MeaningPreserved | scripts/unifdef.c:418-502 | for classified lines: output and input of a run without error are well nested and select the same lines, for every valuation, which may change with the text selected |
| UnifdefMeaning.UnifdefPreservesMeaning | scripts/unifdef.c:583-596 | for source lines: the same for every valuation of the symbols that agrees with the command line throughout, given literals that fit an int |
| UnifdefMeaning.OneIfIff | scripts/unifdef.c:583-596 | a program of text under one condition always runs to the end, and keeps its meaning if and only if the condition is not called true or false against its value |
| UnifdefMeaning.DefaultProgram | scripts/unifdef.c:583-596 | by default the output of a program of three lines selects text that its input does not |
| ZsLayout.SlotSpansTwoPages | mm/zsmalloc.c:1220-1282 | every slot lies in one page or two consecutive ones, and in one exactly if it fits what is left of the page |
| ZsLayout.SlotsApart | mm/zsmalloc.c:755-780 | slots with different indices do not overlap |
| ZsLayout.AfterLastSlot | mm/zsmalloc.c:2197-2198 | the chain holds exactly objs_per_zspage slots; what is left over is smaller than one |
| ZsMemory.CreatePageChain | mm/zsmalloc.c:930-961 | the pages are chained in the order given, and nothing but the links changes |
| ZsMemory.LinkPage | mm/zsmalloc.c:886-928 | every chunk that starts in a page is linked to the next, and the next page begins at the right offset with the right index |
| ZsMemory.InitialList | mm/zsmalloc.c:886-928 | the list threaded by init_zspage is the free list of an empty zspage: all slots in order, and the partial tail chunk never among them |
| ZsMemory.InitZspage | mm/zsmalloc.c:886-928 | the loops establish the zspage invariant with every slot free, in the frames given |
| ZsMemory.ObjectCopy | mm/zsmalloc.c:1510-1578 | the destination slot holds the words of the source slot, wherever either straddles, and all other words stay |
| ZsMemory.MapStraddling | mm/zsmalloc.c:1062-1087 | the buffer holds the words of the straddling slot in order |
| ZsMemory.UnmapStraddling | mm/zsmalloc.c:1090-1120 | exactly the payload words of the slot are written, never its header nor another slot |
| ZsMemory.MapObject | mm/zsmalloc.c:1220-1282 | the words handed to the user are the payload of the slot, whether it straddles or not |
| ZsMemory.UnmapObject | mm/zsmalloc.c:1284-1315 | exactly the payload words of the slot are those the user stored |
| ZsMemory.UnmapWritesPayload | mm/zsmalloc.c:1090-1120 | seen as objects: one payload is replaced, all headers and all other payloads stay |
| ZsPage.LinkRoundTrip | mm/zsmalloc.c:886-928 | a link stored in a free slot decodes to the same index and carries no allocation tag |
| ZsPage.EndRoundTrip | mm/zsmalloc.c:886-928 | an end marker stored in a free slot still reads as the end of the list |
| ZsPage.TakeOk | mm/zsmalloc.c:1337-1377 | allocation hands out the first free slot, keeps list and tags exact, and writes nothing but that header |
| ZsPage.GiveOk | mm/zsmalloc.c:1448-1473 | freeing puts the slot at the front of the list, keeps list and tags exact, and writes nothing but that header |
| ZsPool.EncodeDecode | mm/zsmalloc.c:755-780 | frame and index survive being packed into one object value |
| ZsPool.HandlesApart | mm/zsmalloc.c:1337-1388 | no two live handles share a slot |
| ZsPool.MallocOk | mm/zsmalloc.c:1337-1388 | obj_malloc keeps the heap sound and every existing object as it was, and the new handle names the slot taken |
| ZsPool.ReleaseOk | mm/zsmalloc.c:1448-1507 | obj_free keeps the heap sound and every other object as it was |
| ZsPool.RewriteOk | mm/zsmalloc.c:1284-1315 | a store through a mapped object changes its data and no other object |
| ZsMoves.AddOk | mm/zsmalloc.c:966-1025 | a new zspage disturbs no object |
| ZsMoves.RemoveOk | mm/zsmalloc.c:838-863 | no handle points into a zspage with nothing in use, so giving it back disturbs no object |
| ZsMoves.MoveOk | mm/zsmalloc.c:1610-1643 | moving one object (allocate, copy, free, re-point) keeps the heap sound and every object its data |
| ZsMoves.CopyKeepsData | mm/zsmalloc.c:1510-1578 | the moved object has the payload it had at its old place |
| ZsScan.FindAllocedObj | mm/zsmalloc.c:1584-1608 | the scan returns the first allocated slot that starts in the page from the given one on, or none exactly if there is none |
| ZsMigrate.ReplaceSubPage | mm/zsmalloc.c:1769-1790 | one page is exchanged; order, first-object offsets and the other pages are kept |
| ZsMigrate.StartsInPage | mm/zsmalloc.c:1803-1881 | a handle into the frame of a page belongs to an allocated slot that starts in that page |
| ZsMigrate.MigrateHandle | mm/zsmalloc.c:1803-1881 | after migration every handle decodes to the same zspage and index |
| ZsMigrate.MigrateOk | mm/zsmalloc.c:1803-1881 | migration keeps the heap sound and all data; handles of objects that only end in the page keep their value |
| ZsHeap.Heap.constructor | mm/zsmalloc.c:2162-2182 | an empty heap is sound |
| ZsHeap.Heap.AllocZspage | mm/zsmalloc.c:966-1025 | a zspage of fresh pages joins with all slots free, and every object is undisturbed |
| ZsHeap.Heap.ObjMalloc | mm/zsmalloc.c:1337-1377 | the handle names the head of the free list, which moves on; all else stays |
| ZsHeap.Heap.AllocWithObject | mm/zsmalloc.c:1425-1432 | a new zspage with one object in use, named by the handle, and every other object undisturbed |
| ZsHeap.Heap.ObjFree | mm/zsmalloc.c:1448-1473 | the handle is gone, its zspage has one object fewer, every other object is undisturbed |
| ZsHeap.Heap.FreeZspage | mm/zsmalloc.c:838-863 | an empty zspage leaves the heap, and every object is undisturbed |
| ZsHeap.Heap.MoveObject | mm/zsmalloc.c:1629-1633 | one object changes its place from source to destination and keeps its data |
| ZsHeap.Heap.MigrateZspage | mm/zsmalloc.c:1610-1643 | objects move until the destination is full or the source empty, and every object keeps its data |
| ZsHeap.Heap.RepointHandles | mm/zsmalloc.c:1849-1859 | exactly the handles of objects that start in the page get the new frame |
| ZsHeap.Heap.MigratePage | mm/zsmalloc.c:1803-1881 | every live handle still names the same slot with the same data; chain order and offsets are kept |
| ZsHeap.Heap.ReadObject | mm/zsmalloc.c:1220-1282 | the data is what the handle stands for |
| ZsHeap.Heap.WriteObject | mm/zsmalloc.c:1284-1315 | after a store through the mapping the object has the new data, every other one its old |
| ZsHeap.StoreOk | mm/zsmalloc.c:1284-1315 | on the heap as a value: unmapping replaces the data of one handle |
| ZsAccount.FullnessGroup | mm/zsmalloc.c:658-676 | group 0 means empty, the last group means full, nothing else does |
| ZsAccount.TwoPartial | mm/zsmalloc.c:1964-1977 | without empty zspages, a zspage worth of unused slots means at least two partly full ones |
| ZsAccount.EnlistOk | mm/zsmalloc.c:685-692 | a zspage put on the list of its group makes lists and counters agree about it |
| ZsAccount.UnlistOk | mm/zsmalloc.c:698-706 | a zspage taken off its list leaves lists and counters in agreement about the rest |
| ZsAccount.TouchOk | mm/zsmalloc.c:717-729 | a changed number of objects can put only that zspage in the wrong group |
| ZsAccount.SpliceOk | mm/zsmalloc.c:1912-1915 | splicing the empty zspages out leaves them counted |
| ZsAccount.UnspliceOk | mm/zsmalloc.c:1918-1927 | a spliced zspage is empty, and dropping it keeps counters and lists in agreement |
| ZsBooks.FixOk | mm/zsmalloc.c:717-729 | after fix_fullness_group the zspage is in the group its number of objects gives |
| ZsBooks.NeverOverfull | mm/zsmalloc.c:1964-1977 | the counters never show more objects in use than slots |
| ZsBooks.NothingToGain | mm/zsmalloc.c:1964-1977 | with at most one partly full zspage left, zs_can_compact is zero |
| ZsBooks.ExactGain | mm/zsmalloc.c:1964-2039 | the pages of the zspages freed on the way there are exactly the zs_can_compact of the start |
| ZsClass.SizeClass.constructor | mm/zsmalloc.c:2237-2252 | a new class has empty lists and zero counters, and they agree |
| ZsClass.SizeClass.InsertZspage | mm/zsmalloc.c:685-692 | list, group and counter change for this zspage alone |
| ZsClass.SizeClass.RemoveZspage | mm/zsmalloc.c:698-706 | list and counter change for this zspage alone |
| ZsClass.SizeClass.FixFullnessGroup | mm/zsmalloc.c:717-729 | the zspage changes lists exactly if its group changed |
| ZsClass.SizeClass.FindGetZspage | mm/zsmalloc.c:1027-1040 | the first of the fullest non-empty list with room; none exactly if all these lists are empty (spliced zspages are on none) |
| ZsClass.SizeClass.MallocIn | mm/zsmalloc.c:1413-1421 | the new object lies in that zspage, all others are undisturbed, lists and counters agree |
| ZsClass.SizeClass.MallocNew | mm/zsmalloc.c:1425-1437 | the new object lies in the new zspage, all others are undisturbed, lists and counters agree |
| ZsClass.SizeClass.Malloc | mm/zsmalloc.c:1411-1445 | fails, changing nothing, only without memory and without room; else the object lies in the fullest zspage with room or a new one |
| ZsClass.SizeClass.FreeZspage | mm/zsmalloc.c:865-883 | with the page locks the empty zspage goes and slots and pages are subtracted; without them nothing changes |
| ZsClass.SizeClass.Free | mm/zsmalloc.c:1475-1507 | the handle alone is gone, lists and counters agree, and with the page locks no empty zspage is left behind |
| ZsClass.SizeClass.SpliceEmpty | mm/zsmalloc.c:1912-1915 | the empty zspages move to the deferred list and stay counted |
| ZsClass.SizeClass.FreeSpliced | mm/zsmalloc.c:1918-1927 | the first deferred zspage is freed and lists, counters and objects stay right |
| ZsClass.SizeClass.TakeFirst | mm/zsmalloc.c:1650-1656 | the head of the list is isolated, off list and counter, and it is partly full |
| ZsClass.SizeClass.IsolateSrc | mm/zsmalloc.c:1645-1660 | the first of the emptiest list of partly full zspages; none exactly if there is none |
| ZsClass.SizeClass.IsolateDst | mm/zsmalloc.c:1662-1677 | the first of the fullest list of partly full zspages; none exactly if there is none |
| ZsClass.SizeClass.Putback | mm/zsmalloc.c:1686-1694 | the zspage is back on the list of its group, which is 0 exactly if it is empty |
| ZsClass.SizeClass.Turn | mm/zsmalloc.c:2005-2014 | moving from source to destination disturbs no object and makes strictly fewer zspages partly full; the pages of the source are reported exactly if it was emptied |
| ZsClass.SizeClass.Settle | mm/zsmalloc.c:2016-2026 | the destination is kept only while it is partly full |
| ZsClass.SizeClass.NeedDst | mm/zsmalloc.c:1995-1999 | if there is no destination to be had, there is nothing to gain |
| ZsClass.SizeClass.Pass | mm/zsmalloc.c:1992-2027 | one pass disturbs no object, frees a whole zspage or nothing, and stops only when nothing can be gained or else makes progress |
| ZsClass.SizeClass.Compact | mm/zsmalloc.c:1979-2039 | compaction terminates and disturbs no object; it reports the pages of exactly the zspages it emptied, which are the pages given back if and only if all of these went; run alone with page locks and no empty zspage, it frees exactly zs_can_compact pages |
| ZsClass.MoreReported | mm/zsmalloc.c:2005-2014 | what a pass emptied comes on top of what was emptied before, and nothing counts twice |
| ZsClass.ReportedIff | mm/zsmalloc.c:2005-2014 | the pages reported are the pages given back if and only if every emptied zspage went |
| ZsClasses.Limits.SizeAt | mm/zsmalloc.c:2194-2196 | class sizes lie between the least size and a page and are aligned |
| ZsClasses.LastClass | mm/zsmalloc.c:2194-2196 | the last class is made for whole pages |
| ZsClasses.ChainSize | mm/zsmalloc.c:2131-2150 | the chain length is 1 for powers of two, else the first with the least waste |
| ZsClasses.BestChainUnique | mm/zsmalloc.c:2131-2150 | there is only one such length |
| ZsClasses.CreateClasses | mm/zsmalloc.c:2187-2255 | after merging, every entry is a class of its chain length and object count at least as big as asked; failure only without memory |
| ZsClasses.IndexFits | mm/zsmalloc.c:504-513 | the class of a size is at least that size, or the class for whole pages |
| ZsClasses.PageClassHuge | mm/zsmalloc.c:2187-2255 | the class for whole pages is huge: one object, one page |
| ZsClasses.RequestFits | mm/zsmalloc.c:1407-1409 | for every request from 1 to a page the class found holds payload and header, or is huge and holds the payload |
| ZsClasses.SelectClass | mm/zsmalloc.c:1397-1409 | size 0 and sizes above a page are refused, each with its own error; every other size gets a class that fits |
| ZsClasses.ClassConfig | mm/zsmalloc.c:2187-2255 | every class in the table satisfies what the heap model asks of its geometry |
| ZsClasses.HeaderInOnePage | mm/zsmalloc.c:1337-1377 | the eight bytes of a header never straddle two pages |
| LpaeBits.CountKept | drivers/iommu/qcom-io-pgtable-arm.c:311-334 | the count is stored modulo 2^13, and address, type and attributes stay |
| LpaeBits.CountStep | drivers/iommu/qcom-io-pgtable-arm.c:336-350 | counting up and down is modulo 2^13 and leaves address and type alone |
| LpaeBits.LeafBack | drivers/iommu/qcom-io-pgtable-arm.c:361-382 | a leaf gives back the address, the attributes and the type it was made of, for 4K and for 64K granules |
| LpaeBits.TableBack | drivers/iommu/qcom-io-pgtable-arm.c:512-556 | with either granule a table entry reads back as its table if and only if the table lies below 2^48, whatever its count |
| LpaeBits.TableLost | drivers/iommu/qcom-io-pgtable-arm.c:512-556 | with 64K granules a table at 2^48 reads back as one at 0 |
| LpaeBits.DecodeLeaf | drivers/iommu/qcom-io-pgtable-arm.c:466-486 | the word written for a leaf is not empty, passes the leaf test and stands for the entry the tables record, with the address as far as it can be stored |
| LpaeBits.DecodeTable | drivers/iommu/qcom-io-pgtable-arm.c:512-556 | the word written for a table stands for the entry the tables record, with its count modulo 2^13 |
| LpaeBits.DecodeCount | drivers/iommu/qcom-io-pgtable-arm.c:336-350 | counting up or down in the word is counting in the entry it stands for |
| LpaeAddr.StoredIff | drivers/iommu/qcom-io-pgtable-arm.c:361-382 | a leaf keeps an address if and only if it is aligned to 4K and below 2^48, or to 64K and below 2^52 with 64K granules |
| LpaeAddr.TableAddrIff | drivers/iommu/qcom-io-pgtable-arm.c:512-556 | a table entry keeps the address of an aligned page if and only if it lies below 2^48 |
| LpaeAddr.ShownIff | drivers/iommu/qcom-io-pgtable-arm.c:1260-1299 | every byte of a run of blocks is looked up at its own address if and only if the run is aligned to its blocks and within reach |
| LpaeAddr.Misaligned | drivers/iommu/qcom-io-pgtable-arm.c:1260-1299 | of a block that is not aligned, the byte at the misalignment comes out as the first |
| LpaeAddr.ShownExample | drivers/iommu/qcom-io-pgtable-arm.c:1260-1299 | a block put at the second page of memory: its second page comes out as its first |
| LpaeLevels.CellRange | drivers/iommu/qcom-io-pgtable-arm.c:586-593 | an aligned run of blocks covers exactly the addresses whose block numbers follow one another |
| LpaeLevels.UnderLimit | drivers/iommu/qcom-io-pgtable-arm.c:1242-1248 | every address below the limit has a cell in the first table |
| LpaeTable.LookDown | drivers/iommu/qcom-io-pgtable-arm.c:1260-1299 | a table that is there is the one the walk of its addresses meets |
| LpaeTable.OneTable | drivers/iommu/qcom-io-pgtable-arm.c:1260-1299 | changing one table changes the translation of the addresses that meet it, and of no other |
| LpaeMem.WalkLook | drivers/iommu/qcom-io-pgtable-arm.c:1260-1299 | following physical pointers from page to page is following places in the tree |
| LpaeOps.LeavesOk | drivers/iommu/qcom-io-pgtable-arm.c:466-510 | new leaves translate exactly their range, which was unmapped before, to the addresses they show |
| LpaeOps.WrittenMapped | drivers/iommu/qcom-io-pgtable-arm.c:466-510 | and that is what was asked for if and only if the addresses are aligned to their blocks and within reach |
| LpaeOps.ClearLeavesOk | drivers/iommu/qcom-io-pgtable-arm.c:1157-1192 | clearing leaves unmaps exactly their range |
| LpaeOps.RecountOk | drivers/iommu/qcom-io-pgtable-arm.c:336-350 | a new count changes no translation |
| LpaeOps.InstallEmptyOk | drivers/iommu/qcom-io-pgtable-arm.c:512-556 | an empty table in place of an empty entry changes no translation |
| LpaeOps.SplitOk | drivers/iommu/qcom-io-pgtable-arm.c:1073-1091 | replacing a block by its pieces unmaps the pieces left out, puts the others where they are made for and changes nothing else |
| LpaeCut.CutOk | drivers/iommu/qcom-io-pgtable-arm.c:1149-1173 | clearing an entry unmaps exactly its block, whatever tables hang under it |
| LpaeCut.CutCounted | drivers/iommu/qcom-io-pgtable-arm.c:1149-1173 | and all counts of the tables that stay remain right |
| LpaeSteps.LeavesStep | drivers/iommu/qcom-io-pgtable-arm.c:466-510 | in memory: leaves written and counted above keep the table sound and translate exactly their range |
| LpaeSteps.InstallStep | drivers/iommu/qcom-io-pgtable-arm.c:512-556 | in memory: linking a new page keeps the table sound and all translations |
| LpaeSteps.SplitStep | drivers/iommu/qcom-io-pgtable-arm.c:1049-1118 | in memory: the installed pieces keep the table sound, unmap what was left out and put the rest where it is made for |
| LpaeSteps.ClearStep | drivers/iommu/qcom-io-pgtable-arm.c:1181-1194 | in memory: pages cleared and counted above keep the table sound and unmap exactly their range |
| LpaeSteps.CutStep | drivers/iommu/qcom-io-pgtable-arm.c:1149-1173 | in memory: clearing an entry leaves a sound table without the pages under it |
| LpaeSplit.PieceIff | drivers/iommu/qcom-io-pgtable-arm.c:1073-1091 | a piece of a split block shows its addresses as the block did if and only if its number has no bit in common with the number of the piece that the address of the block names |
| LpaeSplit.StillIff | drivers/iommu/qcom-io-pgtable-arm.c:1049-1118 | split down any number of levels, what is left of a block is found where it was if and only if its address has no bits in the way |
| LpaeSplit.TornTwice | drivers/iommu/qcom-io-pgtable-arm.c:1049-1118 | a piece split again: the two splits are one down to the lower level |
| LpaeSplit.TornIff | drivers/iommu/qcom-io-pgtable-arm.c:1049-1118 | a split changes the translation of the pieces left out only, if and only if the address of the block has no bits in the way |
| LpaeSplit.AlignedUndisturbed | drivers/iommu/qcom-io-pgtable-arm.c:1049-1118 | the address of an aligned block has none |
| LpaeFree.FreedPages | drivers/iommu/qcom-io-pgtable-arm.c:967-1004 | pages of tables that go are queued, none lost and none freed twice |
| LpaeBusy.BusyTop | drivers/iommu/qcom-io-pgtable-arm.c:569-703 | above a table that is there no block is in the way of a request |
| LpaeBusy.BusyAhead | drivers/iommu/qcom-io-pgtable-arm.c:569-703 | what was mapped before makes no difference to later blocks |
| LpaeBusy.BusyThoughFault | drivers/iommu/qcom-io-pgtable-arm.c:488-497 | of a request of which nothing is translated, only tables can be in the way |
| LpaeBusy.SplitStraight | drivers/iommu/qcom-io-pgtable-arm.c:1049-1118 | the pieces of blocks are for addresses they can hold, and aligned if the blocks are |
| Lpae.PageTable.constructor | drivers/iommu/qcom-io-pgtable-arm.c:1396-1507 | a new table is one empty page and translates nothing |
| Lpae.PageTable.Sync | drivers/iommu/qcom-io-pgtable-arm.c:512-531 | queued pages return to the allocator, none lost, and no translation changes |
| Lpae.PageTable.IovaToPhys | drivers/iommu/qcom-io-pgtable-arm.c:1260-1299 | for every address the walk returns the translation the tree means, taking addresses modulo what the table covers |
| Lpae.WrapsAround | drivers/iommu/qcom-io-pgtable-arm.c:1260-1299 | the indices of an address past the table are those of the address modulo what the table covers |
| Lpae.PageTable.WriteLeaves | drivers/iommu/qcom-io-pgtable-arm.c:466-486 | consecutive entries get leaves of consecutive addresses, nothing else is written |
| Lpae.PageTable.InitPtes | drivers/iommu/qcom-io-pgtable-arm.c:488-510 | translates exactly the range, which was unmapped; or changes nothing, exactly if an entry was in use |
| Lpae.PageTable.InstallEmpty | drivers/iommu/qcom-io-pgtable-arm.c:655-668 | a new empty table is linked and no translation changes |
| Lpae.PageTable.MapAt | drivers/iommu/qcom-io-pgtable-arm.c:569-703 | success translates exactly the reported range, as far as one table goes; every failure leaves all translations; EEXIST exactly if something is in the way, ENOMEM only with too few pages for the levels below |
| Lpae.PageTable.FreeTable | drivers/iommu/qcom-io-pgtable-arm.c:967-1004 | the page of the table and of every table under it is queued exactly once |
| Lpae.PageTable.ClearEntry | drivers/iommu/qcom-io-pgtable-arm.c:1157-1161 | the entry and everything under it is gone, and every page is still owned |
| Lpae.PageTable.UnmapBlocks | drivers/iommu/qcom-io-pgtable-arm.c:1141-1175 | blocks are unmapped up to the first that is missing, so all of a fully mapped request |
| Lpae.PageTable.ClearEntries | drivers/iommu/qcom-io-pgtable-arm.c:1192 | the entries of a range are zero, the others stay |
| Lpae.PageTable.UnmapPages | drivers/iommu/qcom-io-pgtable-arm.c:1176-1211 | exactly the pages are unmapped; the table goes when its count says it is empty, which is when it is |
| Lpae.PageTable.FillPieces | drivers/iommu/qcom-io-pgtable-arm.c:1082-1089 | the new table holds the pieces of the block but for those left out, and the count says how many |
| Lpae.PageTable.SplitBlock | drivers/iommu/qcom-io-pgtable-arm.c:1069-1115 | after the split the pieces left out are unmapped, the others are where they are made for, and nothing else changed |
| Lpae.PageTable.SplitUnmap | drivers/iommu/qcom-io-pgtable-arm.c:1049-1118 | a block is split as far down as there are pages; the reported range is unmapped, all of it or without enough pages nothing, and every address of the block is where its pieces are made for |
| Lpae.PageTable.UnmapAt | drivers/iommu/qcom-io-pgtable-arm.c:1120-1229 | from any level: the reported range is unmapped, with a covering block split as often as needed, and every other address of that block is where its pieces are made for |
| Lpae.PageTable.MapPages | drivers/iommu/qcom-io-pgtable-arm.c:773-811 | success translates exactly the reported range, to what was asked for if and only if the addresses are aligned and within reach; every error changes no translation; ERANGE and EEXIST exactly if an address is out of range or something is in the way, EINVAL and ENOMEM only for their causes |
| Lpae.PageTable.Unmap | drivers/iommu/qcom-io-pgtable-arm.c:1231-1257 | of a fully mapped request: without a bigger block all of it is unmapped and nothing else changes; a covering block is split as far as there are pages, all of the request goes or nothing does, and the rest of the block stays if and only if its own address has no bits in the way; for sizes above the first table that is so exactly if no last-level table is met, and else the pages unmapped are counted |
| Lpae.PartedOk | drivers/iommu/qcom-io-pgtable-arm.c:1049-1118 | the exact condition on a covering block, from what its split did; aligned blocks always meet it |
| Lpae.RequestShape | drivers/iommu/qcom-io-pgtable-arm.c:592-597 | a request in bytes is one in blocks, and so is what one table can take of it |
| Lpae.LowCount | drivers/iommu/qcom-io-pgtable-arm.c:1194-1195 | a count of zero after a decrement means the table is empty, even with 8192 entries |
| Lpae.Overstated | drivers/iommu/qcom-io-pgtable-arm.c:1176-1211 | where unmap reports bigger blocks than the table has, it unmapped less than it says |
| Lpae.AnswerParts | drivers/iommu/qcom-io-pgtable-arm.c:1120-1229 | what an unmap returned against what it unmapped: exact without a covering block, by the condition on that block with one; for sizes above the table right exactly without a last-level table |
| LpaeExamples.StaleTable | drivers/iommu/qcom-io-pgtable-arm.c:488-497 | a new table on which a block is mapped and unmapped refuses a bigger one there, of which nothing is translated |
| LpaeExamples.Moved | drivers/iommu/qcom-io-pgtable-arm.c:1049-1118 | with real granules and two levels: after a block mapped at the second page loses its first page, its second page is found one page further on |
| LpaeExamples.Oversize | drivers/iommu/qcom-io-pgtable-arm.c:1176-1211 | with real granules and two levels: unmapping a block above the first table clears one page, says it cleared all, and the next page is still translated |
| LpaeSize.PgShift | drivers/iommu/qcom-io-pgtable-arm.c:813-843 | the bit tricks choose the biggest supported page size that fits and to which both addresses are aligned |
| LpaeSg.OnlyPages | drivers/iommu/qcom-io-pgtable-arm.c:602-616 | under the remembered table, past its first page, no block bigger than a page is aligned |
| LpaeSg.MapBlock | drivers/iommu/qcom-io-pgtable-arm.c:878-897 | one block through the remembered table has the same effect as through a walk from the top, EEXIST included |
| LpaeSg.MapByPgsize | drivers/iommu/qcom-io-pgtable-arm.c:845-906 | exactly the reported part of the range is mapped; requests that are not aligned or not in range are refused; success only if no piece finds something in the way, EEXIST only if one does, ENOMEM only without pages |
| LpaeSg.MapPiece | drivers/iommu/qcom-io-pgtable-arm.c:878-903 | one piece: success maps exactly it, and the pieces left are in the way of something exactly if they were |
| LpaeSg.MapPieces | drivers/iommu/qcom-io-pgtable-arm.c:878-905 | the loop over pieces maps them in order and fails with EEXIST only if one finds something in the way |
| LpaeSg.PiecesAhead | drivers/iommu/qcom-io-pgtable-arm.c:878-903 | what was mapped before makes no difference to the pieces further on |
| LpaeSg.FlushRun | drivers/iommu/qcom-io-pgtable-arm.c:924-948 | a run is mapped, or it is not clear in the table as it was at the start |
| LpaeSg.RunPhys | drivers/iommu/qcom-io-pgtable-arm.c:924-948 | within the pending run, offsets of the list and physical addresses advance together |
| LpaeSg.MapSg | drivers/iommu/qcom-io-pgtable-arm.c:908-964 | every mapped offset translates to that offset of the concatenated list; on success all of it is mapped, but for a run dropped as said, and every run was clear; any failure but for want of pages means that one was not |
| LpaeSg.DroppedExample | drivers/iommu/qcom-io-pgtable-arm.c:924-948 | a list whose only run is dropped |
| LpaeRace.DescendOk | drivers/iommu/qcom-io-pgtable-arm.c:645-703 | whatever happened since, a walk ends at the last-level table of its address, or at an empty entry of a linked table |
| LpaeRace.WriteOk | drivers/iommu/qcom-io-pgtable-arm.c:488-510 | pages are written to the table of their address and to no other, and the count above follows |
| LpaeRace.AllocOk | drivers/iommu/qcom-io-pgtable-arm.c:655-659 | getting a page with the lock dropped keeps the invariant |
| LpaeRace.InstallOk | drivers/iommu/qcom-io-pgtable-arm.c:657-668 | installing it, or finding that another thread did and giving it back, keeps the invariant |
| LpaeRace.LowerOk | drivers/iommu/qcom-io-pgtable-arm.c:1181-1195 | an unmapper lowers the count to zero exactly when it emptied the table |
| LpaeRace.ClearOk | drivers/iommu/qcom-io-pgtable-arm.c:1181-1211 | unmapping keeps the invariant, and exactly its range is unmapped |
| LpaeRace.UnmapOk | drivers/iommu/qcom-io-pgtable-arm.c:1176-1211 | an unmapper of pages run between the steps of any mappers keeps the invariant and unmaps exactly its pages |
| LpaeRace.UnmapBlockIff | drivers/iommu/qcom-io-pgtable-arm.c:1149-1175 | an unmapper of a block keeps the invariant if and only if no mapper waits under it |
| LpaeRace.NobodyUnderIf | drivers/iommu/qcom-io-pgtable-arm.c:1149-1175 | none does if what mappers wait to map is not mapped |
| LpaeRaceExample.Astray | drivers/iommu/qcom-io-pgtable-arm.c:645-703 | from a sound state a block is unmapped under a waiting mapper, another mapper gets the freed page as its table, and the first then writes there: an address that neither asked for becomes translated |
| LpaeRace.StepTrans | drivers/iommu/qcom-io-pgtable-arm.c:645-703 | every such step changes the translations of its own request only: a mapper maps it or changes nothing, an unmapper unmaps it |
| LpaeRace.RunTrans | drivers/iommu/qcom-io-pgtable-arm.c:645-703 | in every run of such steps an address that no request is about keeps its translation |
| LpaeRace.StepOk | drivers/iommu/qcom-io-pgtable-arm.c:645-671 | every step of every thread keeps the invariant, blocks being unmapped only where nobody waits under them |
| LpaeRace.StartOk | drivers/iommu/qcom-io-pgtable-arm.c:1396-1507 | it holds of a new table with idle threads |
| LpaeRace.RunOk | drivers/iommu/qcom-io-pgtable-arm.c:645-671 | in every run of such steps every count is the number of entries in use, modulo 2^13 |
| LpaeRace.WritesLinked | drivers/iommu/qcom-io-pgtable-arm.c:645-671 | no such step writes a page that is not linked, but for the new page it links |
| FastIova.FindArea | drivers/iommu/dma-mapping-fast.c:147-149 | the first aligned clear run from the start on; a number past the end exactly if there is none |
| FastIova.Mapping.constructor | drivers/iommu/dma-mapping-fast.c:839-888 | a new mapping has no page in use |
| FastIova.Mapping.Alloc | drivers/iommu/dma-mapping-fast.c:139-198 | fails exactly if the live bitmap has no aligned free run; else both bitmaps gain that run, and a flush happens only with stale entries |
| FastIova.Mapping.Free | drivers/iommu/dma-mapping-fast.c:200-213 | the run is free but not clean, and the TLB is known to be stale |
| FastIova.Mapping.Reserve | drivers/iommu/dma-mapping-fast.c:929-930 | the run is set in both bitmaps |
| FastTlb.StartInv | drivers/iommu/dma-mapping-fast.c:839-888 | a new mapping satisfies the invariant |
| FastTlb.ReserveInv | drivers/iommu/dma-mapping-fast.c:910-931 | reserving pages that no buffer holds keeps the invariant |
| FastTlb.AllocSafe | drivers/iommu/dma-mapping-fast.c:139-198 | no page of a new range is cached, was handed out since the last flush, is held by another buffer or reserved |
| FastTlb.AllocInv | drivers/iommu/dma-mapping-fast.c:139-198 | allocation keeps the invariant |
| FastTlb.FreeInv | drivers/iommu/dma-mapping-fast.c:200-213 | freeing, after the entries were cleared, keeps the invariant |
| FastTlb.NextInv | drivers/iommu/dma-mapping-fast.c:276-283 | every step keeps it, because entries are cleared before addresses are freed |
| FastTlb.RunSafe | drivers/iommu/dma-mapping-fast.c:215-283 | in every run no newly returned range has a cached translation or a reserved page, and no page is handed out twice between two flushes |
| FastTlb.NeverReserved | drivers/iommu/dma-mapping-fast.c:139-198 | in every run no page reserved at any time is handed out later |
| FastReserve.WindowBits | drivers/iommu/dma-mapping-fast.c:915-930 | the bits of a window lie in the bitmap |
| FastReserve.WindowPages | drivers/iommu/dma-mapping-fast.c:915-930 | a window reserves the pages it touches, but not one that begins with its last address |
| FastReserve.WindowComplete | drivers/iommu/dma-mapping-fast.c:915-930 | all pages touched are reserved if and only if no page of the aperture begins with the last address |
| FastReserve.WindowExample | drivers/iommu/dma-mapping-fast.c:915-930 | a window one byte longer than a page misses a page |
| FastReserve.RegionInside | drivers/iommu/dma-mapping-fast.c:991-998 | the bits lie in the bitmap if and only if the region does not end below the aperture nor begin a page or more above |
| FastReserve.RegionPages | drivers/iommu/dma-mapping-fast.c:991-998 | and then they are those of the pages it touches |
| FastReserve.RegionExample | drivers/iommu/dma-mapping-fast.c:991-998 | a region below the aperture asks for bits that are not there |
| FastReserve.ReserveWindow | drivers/iommu/dma-mapping-fast.c:910-931 | after the call exactly these pages are reserved in addition |
| FastReserve.ReserveRegion | drivers/iommu/dma-mapping-fast.c:988-999 | after the call exactly the pages the region touches are reserved in addition |
| FastTable.FlatIsWalk | drivers/iommu/io-pgtable-fast.c:132-139 | the flat index names the entry the three-level walk reaches |
| FastTable.PageTable.MakePuds | drivers/iommu/io-pgtable-fast.c:520-532 | every 1G block of the aperture gets a middle table, one page each; ENOMEM exactly if there are fewer pages |
| FastTable.PageTable.FillPud | drivers/iommu/io-pgtable-fast.c:543-559 | the 2M blocks of a 1G block get last-level tables in order, one page each; ENOMEM only with the last page used and a block left |
| FastTable.PageTable.MakePmds | drivers/iommu/io-pgtable-fast.c:541-561 | all 2M blocks of the aperture have last-level tables, in the order of the flat array; ENOMEM exactly if there are fewer pages than blocks |
| FastTable.PageTable.Prepopulate | drivers/iommu/io-pgtable-fast.c:490-586 | afterwards flat array and walk agree for the whole aperture, and nothing is mapped; ENOMEM exactly if there are fewer pages than tables needed |
| FastTable.PageTable.IovaToPhys | drivers/iommu/io-pgtable-fast.c:374-408 | the walk returns what the flat entry says |
| FastTable.PageTable.Fill | drivers/iommu/io-pgtable-fast.c:275-278 | exactly the entries of the range get the words |
| FastTable.PageTable.Map | drivers/iommu/io-pgtable-fast.c:258-282 | refused exactly below the base; else the walk finds every page of the range where it was put, and all others as before |
| FastTable.PageTable.Unmap | drivers/iommu/io-pgtable-fast.c:302-329 | the walk finds 0 in the range, stale markers included, and all others as before |
| FastTable.MappedBack | drivers/iommu/io-pgtable-fast.c:273-278 | what the walk returns is the address mapped if and only if it is page-aligned and below 2^48 |
| FastTable.Misplaced | drivers/iommu/io-pgtable-fast.c:273-278 | a page put at 2^48 is found at 0, and one put a byte past a page boundary at the boundary |
| SmqMap.TakeOk | drivers/char/rdbg.c:195-204 | a run taken from free blocks keeps the map well formed and is the only new run |
| SmqMap.GiveOk | drivers/char/rdbg.c:219-227 | giving a run back frees exactly its blocks and leaves every other run |
| SmqMap.RunsApart | drivers/char/rdbg.c:162-227 | runs are disjoint |
| SmqMap.BlockMap.constructor | drivers/char/rdbg.c:239-253 | all blocks free, one fewer than the rings have slots |
| SmqMap.BlockMap.GetOne | drivers/char/rdbg.c:172-183 | a free block is found exactly if there is one |
| SmqMap.BlockMap.GetMany | drivers/char/rdbg.c:184-214 | a run found was free and is now taken, and the search goes on from its end; otherwise the map is as before, and given two rounds there was no free run and the search had ended if and only if there is one stretch of free blocks, or none and it began at a run |
| SmqMap.TurnTowards | drivers/char/rdbg.c:187-213 | as long as there is a free run, every turn of the search comes nearer to it and does not meet its start |
| SmqMap.OutlookTurn | drivers/char/rdbg.c:187-213 | every turn keeps what decides the search: it nears a free run, closes in on the one free stretch, circles back to its start or for ever misses it; it meets its start only in the cases said |
| SmqMap.OutlookEnd | drivers/char/rdbg.c:187-213 | a search that has gone two rounds never ends |
| SmqMap.ClosesTo | drivers/char/rdbg.c:187-213 | with one free stretch, too short, the search reaches it within a round |
| SmqMap.ClosesBack | drivers/char/rdbg.c:187-213 | and comes back to its beginning, where it stops |
| SmqMap.CirclesOn | drivers/char/rdbg.c:187-213 | without free blocks and begun at a run, the search comes back to that run |
| SmqMap.MissesOn | drivers/char/rdbg.c:187-213 | without free blocks and begun inside a run, it jumps over its start at every round |
| SmqMap.ChasesOn | drivers/char/rdbg.c:187-213 | with two free stretches, its start moves on before it is met |
| SmqMap.Endless | drivers/char/rdbg.c:187-213 | on a new map of two blocks, after taking both, a search for two more never meets its start |
| SmqMap.BlockMap.MarkRun | drivers/char/rdbg.c:198-200 | the cells count down to the end of the run, so the first holds its length |
| SmqMap.BlockMap.Put | drivers/char/rdbg.c:219-227 | exactly the run that starts there is free again |
| Smq.RingPush | drivers/char/rdbg.c:390-398 | writing and moving the index appends to the ring, unless it is full but for one slot |
| Smq.RingPop | drivers/char/rdbg.c:313-321 | reading and moving the index takes the oldest element |
| Smq.NeverFull | drivers/char/rdbg.c:249 | sent, held and free runs together are at most as many as blocks, so neither ring overruns |
| Smq.SendOk | drivers/char/rdbg.c:379-398 | sending keeps every run in exactly one place, runs disjoint, and messages intact |
| Smq.ReceiveOk | drivers/char/rdbg.c:296-335 | the oldest message moves from the ring to the consumer, intact |
| Smq.FreeOk | drivers/char/rdbg.c:261-294 | a run moves from the consumer to the free ring |
| Smq.DrainOk | drivers/char/rdbg.c:351-375 | the run at the head of the free ring goes back to the map |
| Smq.TakeBack | drivers/char/rdbg.c:400-404 | taking blocks and giving them back leaves the map as it was |
| Smq.SharedQueue.constructor | drivers/char/rdbg.c:645-727 | a new queue is empty and keeps the invariant |
| Smq.SharedQueue.Drain | drivers/char/rdbg.c:347-377 | the loop ends with the free ring empty; the index check never fails |
| Smq.SharedQueue.Get | drivers/char/rdbg.c:162-217 | as the block map, endless searches included; for one block the search always ends |
| Smq.SharedQueue.AllocSend | drivers/char/rdbg.c:337-407 | success appends the message to what is under way; every failure leaves rings and messages as they were, and the map but for what was drained; out of memory only without a free run, and always successful with one, if the copy is; the search for it ends exactly as said |
| Smq.SharedQueue.Post | drivers/char/rdbg.c:384-398 | the blocks hold the message and the ring ends with it |
| Smq.SharedQueue.Receive | drivers/char/rdbg.c:296-335 | messages come in the order sent, unchanged; none exactly if none is under way |
| Smq.FreedOnlyHeld | drivers/char/rdbg.c:261-294 | freeing what the consumer does not hold breaks the queue, whatever it is taken to hold afterwards |
| Smq.SharedQueue.Release | drivers/char/rdbg.c:261-294 | indices out of range are refused, others are put on the free ring; what is held leaves the consumer, and anything else breaks the queue |
| SgList.Limits.Need | drivers/iommu/qcom-dma-iommu-generic.c:555-563 | the granules an entry needs are at least its bytes with their offset |
| SgList.WholeGranules | drivers/iommu/qcom-dma-iommu-generic.c:554-587 | every entry begins on a granule and the total is in whole granules |
| SgList.EntryInside | drivers/iommu/qcom-dma-iommu-generic.c:565-581 | padding keeps every entry on one side of every boundary |
| SgList.LayOneOk | drivers/iommu/qcom-dma-iommu-generic.c:554-585 | one turn lays out one entry and pads the one before |
| SgList.Prepare | drivers/iommu/qcom-dma-iommu-generic.c:540-588 | the total is the layout of the list, and each entry remembers its offset and length |
| SgList.WriteLayout | drivers/iommu/qcom-dma-iommu-generic.c:559-581 | the writes of a turn touch this entry and the one before |
| SgSegments.RunIff | drivers/iommu/qcom-dma-iommu-generic.c:597-644 | the segments cover the addresses of the bytes in order if and only if every entry with bytes goes where it is mapped |
| SgSegments.OnTrack | drivers/iommu/qcom-dma-iommu-generic.c:605-642 | until an entry takes up 2^32 or more, the loop has the right address and the open segment ends there |
| SgSegments.OnlyByJoining | drivers/iommu/qcom-dma-iommu-generic.c:620-642 | after that an entry with bytes is right only by being appended where the last bytes ended |
| SgSegments.AddrsIff | drivers/iommu/qcom-dma-iommu-generic.c:597-644 | the addresses are right if and only if all bytes come before such entries, but for bytes appended as said |
| SgSegments.AstrayExample | drivers/iommu/qcom-dma-iommu-generic.c:638-641 | two entries of 3G: padding makes the first take up 2^32, and the second is put where the first is |
| SgSegments.SavedExample | drivers/iommu/qcom-dma-iommu-generic.c:623-641 | a list with such an entry whose addresses are right all the same |
| SgSegments.NeedInside | drivers/iommu/qcom-dma-iommu-generic.c:590-596 | at a base that begins a boundary, or with all on one side of it, every entry lies on one side of every boundary |
| SgSegments.TurnAddrs | drivers/iommu/qcom-dma-iommu-generic.c:623-637 | one turn adds exactly the addresses of one entry, to the open segment or to a new one |
| SgSegments.TurnInside | drivers/iommu/qcom-dma-iommu-generic.c:620-637 | and keeps every segment on one side of every boundary |
| SgSegments.TurnOk | drivers/iommu/qcom-dma-iommu-generic.c:605-642 | one turn keeps offsets and lengths restored and what the loop carries in step with the list |
| SgSegments.WriteTurn | drivers/iommu/qcom-dma-iommu-generic.c:611-637 | the writes of a turn touch this entry and the open segment |
| SgSegments.Finalise | drivers/iommu/qcom-dma-iommu-generic.c:597-644 | offsets and lengths are back and no segment is too long; the segments cover in order exactly the addresses of the bytes if and only if the rooms allow it; where no entry with bytes follows one that takes up 2^32 or more, and base and entries are as said, none crosses a boundary |
| SgList.EmptyRoom | drivers/iommu/qcom-dma-iommu-generic.c:554-585 | an empty entry is laid out with length 0 if and only if it begins a granule and is not padded, multiples of 2^32 aside |
| SgList.EmptyExample | drivers/iommu/qcom-dma-iommu-generic.c:655-662 | an empty entry whose length does not come back |
| SgList.EmptyAgain | drivers/iommu/qcom-dma-iommu-generic.c:655-662 | an empty entry within a granule whose length comes back, since its room is 2^32 |
| SgList.Invalidate | drivers/iommu/qcom-dma-iommu-generic.c:650-663 | offsets, and lengths of non-empty entries, are back; an empty entry gets its laid out length |

## Left out

- UnifdefExpr.ComputeIfEval: starts from tokens; the scanning of characters, comments and continued lines is not modelled.
- UnifdefMeaning.UnifdefPreservesMeaning: requires literals that fit an int, since the property is false for others (see above).
- LpaeSg.MapSg: takes a list of at least one entry, as the code reads the first one unconditionally.
- Lpae.PageTable.Unmap: takes requests whose every page is mapped and that lie in the table's range, aligned to their page size.
- Lpae.PageTable.MapPages: takes requests aligned to their page size that end within the table's range, as the IOMMU core sends them.
- LpaeRace.RunOk: threads map pages and unmap pages and blocks, blocks only where no mapper waits under them (see above); mapping of blocks, and a lost race to install a split, are not among the steps.
- LpaeRace.StepOk: as LpaeRace.RunOk, blocks are unmapped only where no mapper waits under them.
- LpaeRace.RunTrans: as LpaeRace.RunOk.
- LpaeRace.StepTrans: as LpaeRace.RunOk.
- LpaeRace.WritesLinked: as LpaeRace.RunOk.
- LpaeRaceExample.Astray: begins with a table of blocks, which mappers of blocks make and the steps of LpaeRace do not.
- FastReserve.ReserveRegion: takes regions whose bits lie in the bitmap (see above).
- SmqMap.BlockMap.GetMany: `fuel` bounds the turns, because some searches that fail go on for ever; which ones is stated exactly (see above).
- Smq.SharedQueue.AllocSend: messages are whole blocks, 1 to 255 of them; a failed copy from user space writes none of the blocks.
- Smq.SharedQueue.Release: the count in a free node, which is always 0 and never read, is dropped.
- SgSegments.Finalise: takes entries within the maximum segment length; boundaries are kept for bases as said and entries within the boundary.
- FastTlb.ReserveInv: pages are reserved while no buffer holds them, as when a mapping is set up.
- ZsClass.SizeClass.Compact: runs alone: where the lock is released between passes, nothing else happens to the class. Contention and page locks are oracles.
- ZsMemory.MapStraddling: reads the buffer in words of eight bytes; the mapping modes are not distinguished.
- bitmap_find_next_zero_area is not part of this model's sources; it is modelled by its well-known algorithm.
- Locks, barriers, reference counts, page and slab allocation, cache and TLB maintenance are atomic steps or parameters (pools, supplies, lock and copy oracles).
- zsmalloc: statistics files, zpool glue, shrinker, CPU hotplug and pool destruction, which are plumbing.
- LPAE: contiguous hint, stage 2 and concatenated first tables, the Mali format, register setup and self tests, which multiply cases.
- unifdef: files, and the options that change how lines are written (complement, blanked lines, blank-line compression, `#line` output, text mode).
- SMQ: the reset handshake, interrupts and the device file.
- Fast SMMU: error unwinding of the larger allocations, MSI reservation, cache sync and the lookup of mappings.
- Client bookkeeping in `drivers/iommu/msm_dma_iommu_mapping.c`, whose invariants depend on callers' discipline.
- Smaller helpers (`drivers/eom/buffer_manager.c`, name formatting, `recordmcount`), which would add only easy members.
