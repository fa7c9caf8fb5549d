# GGGGC: what its collectors promise, proved in Dafny

GGGGC is a precise garbage collector for C, with two collectors behind one interface. Both keep their
bookkeeping in the heap that they collect: mark bits and forwarding pointers in the headers, the sizes of
live and dead runs in dead words, break tables in the gap that compaction opens, free-list nodes in dead
objects. This project models both collectors over arrays of words, in place, and proves that what the roots
reach survives every collection with its contents and its shape, and that the collectors' tables are right
whenever a mutator can see them.

## How the model is laid out

**The moving collector, `gembc`.** `Heaps`, `Graph` and `Bitmaps` say what a well-formed heap is: pools tiled
by objects, each object's length the size that its descriptor gives, descriptors that are objects themselves,
pointers where the descriptor's bitmap has a bit. A heap may be *half forwarded*: that is what a minor
collection leaves when it gives up. `Isomorphism` and `CollectedState` say what it means for a collection to preserve
the graph.

* Full collection: `FullMarking`, `Counting` (boundary tags), `Compaction` (the sliding copy and the rolling
  break table), `BreakTables` and `BreakTableSearch` (sort and search), `Relocation` and `PostCompaction`
  (pointers, remembered set, card table), put together in `FullCollection`; `FullPreservation` proves that the
  result is the reachable part of the old graph, moved. `RepeatedRoots` is what becomes of root slots that are listed more
  than once.
* Minor collection: `CardWalking`, `OldAllocation`, `Promotion`, `Redirection`, `MinorCollection`,
  `MinorBounds` (it copies no more than it must), `MinorAttempt`, `MinorFinish`. `Collecting` is the whole of `ggggc_collect0`: attempts that restart one generation higher,
  and become a full collection in the end.
* The mutator: `Mutation`, `Allocation`, `Descriptors`, and the class `Gembc.Collector`, whose `Valid()` is the
  invariant over whole runs: every public operation requires and restores it, so it holds after any sequence of
  barriered writes, pushes, pops, allocations and collections. `Keeping` composes what such runs keep.
  `DescriptorTowers` is the table of descriptors of descriptors on top of it.

**The portable mark-and-sweep collector, `portablems`.** `PortableHeaps`, `PortableMarking`, `PortableSweeping`, `PortableCollection`,
`PortableAllocation`, `PortableMutation`, `PortableKeeping`, and the class `PortableMs.Collector`. `PortableParallel` is the part of
a collection in which all threads sweep at once, each its own pools: steps of one access to memory each, but for words of its own, interleaved in any way, up to
the last meeting, and the clearing of the free lists after it. `PortableFinishing` proves that the threads can always come to its end.

**Threads.** `Barriers` is the semaphore barrier as interleaved steps of any fixed number of threads; `Worlds` is
the stop-the-world protocol over a barrier at which all counted threads meet at once. Its threads also take *raw* locks,
as `allocator.c:232-265` and `allocator.c:423-437` do around an allocation that may collect: a thread that waits for one is
counted, and does not come to the barrier. `WorldEnding` proves that a collection ends unless such a wait stands in its way,
when the threads that run yield to it first; `WorldSticking` has, for all steps of all threads, the exact conditions under which a
collection can get stuck and under which it can still be brought to an end. `WorldServing` has the exact condition under which a
thread that asks for the world's lock can come to have it, and what each use of the lock comes to.

**Structures beside them.** `HashMaps` (the chained map with its in-place rehash) and `Worklists` (the chunked worklist).

Code that works in place is a method over arrays or a class with fields, proved against functions and predicates on
the words; the properties are then lemmas about those. `ghost` heaps, maps and sets are specification only.

## What is assumed

* Words have 64 bits and a header is one word. Addresses are word numbers `a`, and `Ptr(a)` is the byte address
  `8 * a`, so that bits 0 and 1 of a pointer are free for the forwarding and mark bits. Words are unbounded integers wherever no bit of them matters.
* The debugging, tagging (internal and external), JIT stack and finalizer features are off.
* The default layout: a pool is 2^24 bytes, a card 2^12 bytes; the pool header, with its two card tables, ends inside
  card 3, so that objects start at word 1543 of a pool. `ggggc_postCompact` notes `firstObject` of the card of `free` even when
  `free == end`, which wraps to card 0; that is harmless because the header fills card 0.
* One readable word follows the last pool: the copying step of two words (`collector/gembc.c:1156-1163`) and the card
  walk (`collector/gembc.c:541-546`) may look at it.
* Objects have at least three words, as `ggggc/gc-gembc.h:52-56` demands.
* Root slots lie outside the pools, and are distinct: `collector/gembc.c:976-984` relocates a slot as often as it is listed.
  `RepeatedRoots.RepeatedSlots` says exactly when that is harmless, for any list of slots, and `RepeatedRoots.SlotListedTwice`
  gives a well-formed heap where it is not.
* The mutator may write anything to a data word, and null or an object's address to a pointer word; it does not
  change a descriptor's size or bitmap once that is made.
* `qsort` is modelled by an insertion sort in place, which is verified too.
* For `gembc`, every generation has its pools from the start. For `portablems`, the pools that the operating system
  would give are a list, `reserve`, which may be empty.
* `btEnd` may come to equal the pool's end, with which the debugging checks at `collector/gembc.c:1174` and `collector/gembc.c:1181`
  compare it: those checks, strict, ask one word more than the algorithm guarantees. `Compaction.TableReaches` says exactly when, and
  `Compaction.ThreeBelowThree` is such a pool. The model follows the algorithm.

## Model

| member | source | states |
|---|---|---|
| Compaction.Compact | collector/gembc.c:1127-1189 | in place and for every pattern of live and dead runs that the tags describe: each live word ends up lower by the number of dead words below it, no word outside the pool changes, `free` is where the live words end, and the table holds one entry for each live run that moved, in address order, within the pool, as many words past `free` as moved runs have odd length |
| Compaction.CopyPair | collector/gembc.c:1156-1163 | one step of the copying loop moves the first table entry to the back before two words of the run overwrite its place; the rest of the table and the unread part of the run are untouched |
| Compaction.CopyRun | collector/gembc.c:1155-1163 | copying a whole run, odd or even, leaves the table a rotation of what it was, between the copied words and the unread source, drifting at most a word |
| Compaction.MoveRun | collector/gembc.c:1155-1170 | a run and its new entry keep the loop's state: what is below is in place, what is above is as it was with its size tags, and the table fits into the gap |
| Compaction.SkipDeadRun | collector/gembc.c:1142-1153 | stepping over a dead run finds the next live run's size still in the word below it, wherever the table has rolled to |
| Compaction.TableReaches | collector/gembc.c:1165-1182 | wherever a run ends, the table that has been rolled there ends no higher, and just there if and only if every dead run below has three words, every live run above a dead one is odd, and the last run is live |
| Compaction.ThreeBelowThree | collector/gembc.c:1180-1182 | three dead words below three live ones that end the pool: the table ends where the pool does, which the debugging check would take for an error |
| BreakTables.Sort | collector/gembc.c:1187-1188 | sorts the entries in place by original address: from any rearrangement of the strictly sorted table it makes that very table |
| BreakTables.SortedUnique | collector/gembc.c:785-796 | a sorted rearrangement of a table whose addresses differ is that table, so the comparison of `orig` alone determines the result |
| BreakTableSearch.FindEntry | collector/gembc.c:799-832 | finds the last entry not above the location, or reports none exactly when all are above, and probes at most 2·log2(n)+4 times |
| BreakTableSearch.LookupRelocates | collector/gembc.c:765-775 | subtracting the covering entry's shift, or nothing when none covers, gives every live word's place after compaction |
| BreakTableSearch.SecondLookup | collector/gembc.c:976-984 | relocating an address a second time leaves it alone if and only if it lies below every entry of the table |
| Counting.CountUsed | collector/gembc.c:1076-1124 | from a marked, perhaps half-forwarded pool it leaves the length of the first live run in its result and of all other maximal runs in the dead words next to them, clears all marks of the pool, changes no other word of a live object, and never reads a size that a tag has overwritten |
| Counting.SizeOfDead | collector/gembc.c:1093-1103 | the size of a dead object is read right through any chain of forwarding pointers, although its descriptor may be dead and already tagged over |
| Counting.TagLive | collector/gembc.c:1112-1122 | the tag of a live run goes into the dead word below it and overwrites no tag |
| FullMarking.MarkAll | collector/gembc.c:854-949 | marks exactly the least set of nodes closed under the roots, and points each of their slots past all forwarding, changing nothing else |
| FullMarking.MarkStep | collector/gembc.c:913-922 | marking a node that a pending slot leads to and listing its slots keeps the marking state: marked nodes are reachable, and whatever they lead to is marked or pending |
| FullMarking.FollowForwarded | collector/gembc.c:190-193 | following forwarding pointers from any object ends, at the node that stands for it |
| Bitmaps.AddObjectPointers | collector/gembc.c:215-232 | the shifting decoder lists exactly the words whose bit is set and which are not null, and the header, across all bitmap words |
| Bitmaps.DecoderTurn | collector/gembc.c:222-229 | each turn tests the bit of its own word, reloading when a bitmap word is used up |
| Relocation.FollowCompacted | collector/gembc.c:765-775 | for any address in a compacted pool, an object's or not, gives what subtracting the covering entry's shift gives in that pool's table; for an address that survives this is where it has moved |
| Relocation.MovedTurn | collector/gembc.c:1231-1257 | the decoder run over the descriptor's moved copy, while other objects still hold old pointers, tells of each word what the descriptor told before anything moved |
| Relocation.NewDescReads | collector/gembc.c:1220-1226 | once an object's descriptor has been followed to its new place, the size and the bitmap read there are the old ones |
| Relocation.RelocateObject | collector/gembc.c:1220-1262 | relocates each pointer of one object once, no other word, and remembers the card exactly when one of them leads to a younger generation |
| PostCompaction.PostCompact | collector/gembc.c:1192-1289 | walks a compacted pool object by object, relocates every pointer in it, and rebuilds its tables: the remembered cards are exactly those where an object with a pointer to a younger generation begins, and `firstObject` is right for every card in which an object begins |
| PostCompaction.NextLiveStarts | collector/gembc.c:1200-1264 | stepping by sizes through the compacted pool meets exactly the survivors: after an object's end the next live word of the old pool began a live object, and slides to where the walk stands |
| FullCollection.CollectFull | collector/gembc.c:835-1065 | all phases over all pools, on any well-formed heap, half forwarded or not: every surviving word is in its new place with its pointers relocated, roots too, no other variable has changed, all free pointers and card tables are those of the new heap |
| RepeatedRoots.FollowedAgain | collector/gembc.c:765-775 | followed any number of times, the address of a live object ends at the object's new place if and only if it was followed once or the new place lies below the old places of all the objects of the pool that have moved |
| RepeatedRoots.RepeatedSlots | collector/gembc.c:976-984 | however often the root slots are listed, all of them are right after their relocation if and only if each one listed more than once is null or leads to an object whose new place lies below the old places of all that have moved in its pool |
| RepeatedRoots.RelocateListed | collector/gembc.c:976-984 | the loop over root slots, listed in whatever order and however often, leaves exactly the words that relocating them one after another makes |
| RepeatedRoots.SlotListedTwice | collector/gembc.c:976-984 | in a well-formed heap with a dead object, a descriptor above it and an object above that in a variable, all that collecting requires holds; whatever the words are when the roots come to be relocated, as long as the variable is as it was, listed once it ends up at the object's new address, and listed twice at the descriptor's |
| FullPreservation.CollectionPreserves | collector/gembc.c:835-1065 | the heap left by a full collection is well formed with nothing forwarded; mapping each live address to itself less the dead words below it is an isomorphism from the reachable graph; and all that is left is reachable |
| CollectedState.FullState | collector/gembc.c:1192-1274 | after a full collection every table that a minor collection relies on is right, the generational invariant included |
| CollectedState.FullPreserves | collector/gembc.c:481-495 | a full collection that follows failed minor attempts preserves the graph that there was before the first of them |
| Cards.NoteStart | collector/gembc.c:1209-1218 | noting the next object's start when it begins a new card keeps `firstObject` right for every card so far, whatever cards large objects jump over |
| OldAllocation.MallocOld | collector/gembc.c:115-159 | takes the words from the first pool from the cursor on that has room, notes the free pointer if it came into a new card, clears the word there if the pool goes on, and fails, changing no word, only when no pool from the cursor on has room |
| CardWalking.WalkCard | collector/gembc.c:538-548 | from `firstObject`, stepping by object size, it lists the slots of exactly the objects that begin in the card |
| CardWalking.WalkOlder | collector/gembc.c:535-550 | of all generations above the one collected, exactly the objects that begin in remembered cards are listed |
| Promotion.PromoteOk | collector/gembc.c:616-621 | copying a node into an older generation and forwarding it leaves a well-formed, half-forwarded heap: forwarding leads to older generations only, hence never round in a circle |
| Promotion.PromoteIso | collector/gembc.c:616-621 | the graph, seen through forwarding, is the same after the copy |
| Redirection.RedirectOk | collector/gembc.c:574-578 | pointing a slot past forwarding leaves a well-formed heap |
| MinorCollection.PromoteAttempt | collector/gembc.c:590-621 | one copy keeps all that an attempt keeps: the old graph stands in the heap, older generations are unforwarded, tables right, every older object with a younger pointer in a remembered card |
| MinorCollection.PromoteScanned | collector/gembc.c:616-624 | after a copy with its slots listed, every slot of a root, a remembered object or a copy is settled or on the worklist |
| MinorAttempt.Evacuate | collector/gembc.c:590-620 | copies a node word for word to the first pool of the next generation, from the current one on, that has room, and forwards it, or leaves the heap alone because none of those has |
| MinorAttempt.ScanSlot | collector/gembc.c:562-625 | handles one slot; each step copies a node that had not been copied in this attempt or shortens the worklist, which bounds the loop; what it copies stands for something that the roots or the remembered older objects lead to |
| MinorAttempt.Attempt | collector/gembc.c:498-660 | an attempt ends; on success no root and no older object points into the generations collected; either way the old graph stands, each object has been copied at most once and all copies are one generation up, none of an object that the roots and the remembered older objects do not lead to; a pool is passed over only when something that was copied does not fit there; and it fails only when some such node fits into no pool of the next generation |
| MinorBounds.LeadsIn | collector/gembc.c:562-588 | in a heap that copying has changed, every slot of the roots, of remembered objects and of their copies leads to where a node of any closed set stands that holds those objects |
| MinorBounds.PromoteSparing | collector/gembc.c:590-620 | copying what such a slot leads to, past pools without room for it, keeps to this: only what is held is copied, and only pools that are too small are passed over |
| MinorAttempt.ReadyAgain | collector/gembc.c:607-613 | a half-forwarded heap left by a failed attempt is what an attempt one generation higher starts from |
| MinorFinish.EmptiedOk | collector/gembc.c:679-694 | once evacuated, the generations can be emptied: what stays is well formed, with nothing forwarded |
| MinorFinish.EmptiedState | collector/gembc.c:679-700 | emptying the generations up to `gen` and forgetting the cards of those up to `gen + 1` leaves every table right, the generational invariant included |
| CollectedState.MinorPreserves | collector/gembc.c:497-701 | a minor collection, whatever attempts went before, preserves exactly the reachable graph |
| Collecting.Collect | collector/gembc.c:479-701 | the whole collection, over any number of promotion failures: the graph is preserved, all invariants hold again; each step to a higher generation was forced by a node that the roots or the remembered older objects led to, for which no pool of that generation had room; it ends as a successful attempt, whose heap it states with all tables and cursors, or, exactly when it has come to the last generation, as a full collection of what the attempts have left, which it states likewise |
| Collecting.WhereTo | collector/gembc.c:590-623 | of what was reachable a minor collection leaves the older objects in their places, and takes all others to the generation next to the last one that it emptied |
| Collecting.YoungKept | collector/gembc.c:498-623 | whatever a minor collection leaves is an older object, or is where a node of `held` stands now, for any closed set that holds the remembered older objects: the rest of the young generations is reclaimed |
| Collecting.OthersKept | collector/gembc.c:479-701 | no collection changes a word after the pools that is not on the pointer stack |
| Collecting.ResetYoung | collector/gembc.c:680-699 | empties exactly the pools of the generations up to `gen` and forgets exactly the cards of those up to `gen + 1` |
| Mutation.WriteOk | ggggc/gc-gembc.h:60-70 | storing null or an object's address in a pointer word, or anything in a data word, leaves a well-formed heap |
| Mutation.WriteState | ggggc/gc-gembc.h:60-70 | a store whose object's card is remembered keeps the generational invariant and all tables |
| Allocation.PlacedState | collector/gembc.c:82-89 | a new object in generation 0 keeps every invariant |
| Descriptors.SelfDescribedOk | allocator.c:242-249 | the four words with size 4 and bits 0 and 2, their header pointing at themselves, are a well-formed object that describes itself |
| Descriptors.MadeDescriptorState | allocator.c:299-312 | an object whose size and bitmap words are data can become a descriptor |
| Bitmaps.StoredBitmap | allocator.c:304-312 | a descriptor stored from a bitmap describes exactly the header and the words with a bit, whatever bit 0 was, and none but the header when there is no bitmap |
| Gembc.Collector.constructor | collector/gembc.c:35-53 | an empty heap with cleared remembered sets satisfies the invariant, and allocation begins at the first pool of each generation |
| Gembc.Collector.WritePointer | ggggc/gc-gembc.h:60-70 | the barriered store changes that word only, remembers exactly the card of the object that it writes to beside those remembered before, and keeps the invariant |
| Gembc.Collector.WriteData | ggggc/gc-gembc.h:78-82 | a data store changes that word only and keeps the invariant without remembering anything |
| Gembc.Collector.Collect0 | collector/gembc.c:409-730 | from any state that a run can reach, a collection of the generations up to `g`, and of no more than were forced by full ones, as `Collecting.Went` says: the reachable graph is preserved and the invariant restored |
| Gembc.Collector.CollectAll | collector/gembc.c:1293-1298 | one collection for each generation in turn, the one numbered `i` of the generations up to `i`, each preserving the graph; afterwards only what is reachable is left and allocation begins at the first pools |
| Gembc.Collector.Bump | collector/gembc.c:74-97 | takes cleared words from the first pool from the cursor on that has room, and moves the cursor there, or none has and only the cursor moves |
| Gembc.Collector.Malloc | collector/gembc.c:68-108 | a cleared object with the asked descriptor, in the first pool of generation 0 with room for it; every collection it runs is one of generation 0, begun because no pool from the current one on had room, with the descriptor protected, and the search starts again, for up to any given number of them; it fails only after that many, with no room left, and if there were any the last was forced up through all generations and all that is left is reachable, or the object exceeds a pool |
| Gembc.Collector.AllocateDescriptor | allocator.c:278-336 | the new descriptor describes exactly the header and the words of the bitmap, has the descriptor in hand for its header and no user pointer, and beside it the heap is as the collections, if any, left it; those, and failure, as in `Malloc` |
| Gembc.Collector.AllocateSelfDescriptor | allocator.c:239-249 | the self-described descriptor is made without a descriptor to protect; collections and failure as in `Malloc` |
| Gembc.StillDescribesDescriptors | collector/gembc.c:99-105 | a descriptor of descriptors that a variable points at still is one after a collection has moved it |
| Keeping.KeepsTrans | collector/gembc.c:1293-1298 | what a run keeps composes over its steps |
| Keeping.KeepsReachable | collector/gembc.c:1293-1298 | keeping covers all that the roots reach |
| DescriptorTowers.SizesDescend | allocator.c:225-230 | the size of a descriptor's descriptor is smaller, save that 3 leads to 4, and 4 alone is its own |
| DescriptorTowers.Tower.DescriptorDescriptor | allocator.c:212-266 | the recursion ends; the result has pointers in exactly the header and the user word and is in the table, from where it comes without allocating when it was made before; whatever was reachable is kept through all the collections that the recursion may cause; `log` says for each descriptor made which collections its allocation ran, where it was put and with what header, that only those that are needed were made, and that one in vain was the last and had run all its collections |
| DescriptorTowers.Tower.Descriptor | allocator.c:278-336 | a descriptor for any size and bitmap, its own descriptor fetched or made first, everything reachable kept; it fails only when the last allocation of `log` did, after the given number of collections and with no room for that descriptor |
| DescriptorTowers.Tower.PointerArrayDescriptor | allocator.c:380-413 | every word but the array's length is a pointer, across all bitmap words, the empty array included, whose size is raised to the least there is; failure as in `Descriptor` |
| DescriptorTowers.Tower.DataArrayDescriptor | allocator.c:416-420 | no word but the header is a pointer; failure as in `Descriptor` |
| PortableMarking.MarkRoots | collector/portablems.c:351-432 | marks exactly the objects that the roots reach, descriptors included, and changes nothing but mark bits; objects that are marked from the beginning are passed over, and then what is marked is the least set with them that is closed but for their pointers |
| PortableMarking.WhenMarksLose | collector/portablems.c:376-382 | such marks make no reachable object go unmarked if and only if all that reachable ones among those objects point at comes to be marked in some other way |
| PortableMarking.Mark | collector/portablems.c:362-431 | the worklist loop ends, and adds to a closed marked set all that the given object reaches |
| PortableSweeping.WriteInCell | collector/portablems.c:481-505 | a write to word 0 or 2 of a dead cell leaves every size that the sweep may still read, dead and swept descriptors included, every parked size but its own, and every unswept cell |
| PortableCollection.DeadSize | collector/portablems.c:481-488 | the size read at an unmarked cell, free or allocated, is its own, even when its descriptor is dead and swept |
| PortableSweeping.PassMerged | collector/portablems.c:491-494 | a dead cell that follows the last node grows it by its size, in place |
| PortableSweeping.PassNew | collector/portablems.c:495-502 | a dead cell elsewhere becomes a node linked after the last |
| PortableCollection.SweepPool | collector/portablems.c:455-507 | one pool, from any state of the sweep: its survivors and free nodes tile it again, no two nodes are neighbours, and free words plus survivors grow by the pool's words |
| PortableCollection.Sweep | collector/portablems.c:438-515 | all pools: a partition into survivors and maximal free nodes, the list enumerates those nodes in the order of the pools and their addresses, and free words plus survivors are all words |
| PortableCollection.AddInOrder | collector/portablems.c:495-502 | a node made where the sweep stands comes after all others in that order |
| PortableCollection.ClearFreeList | collector/portablems.c:522-525 | puts every parked size in its place and touches nothing else |
| PortableCollection.CollectionOk | collector/portablems.c:438-525 | after marking, sweeping and clearing the heap is well formed, its free list right, its objects exactly the reachable ones, unmoved and unchanged |
| PortableCollection.Collect | collector/portablems.c:543-675 | the whole single-threaded collection does this, in place, touches nothing outside the pools, and leaves the free list in the order of the pools |
| PortableParallel.SizesRight | collector/portablems.c:462-488 | threads that sweep their own pools at once, their reads and writes interleaved in any way: every size that a thread reads is its cell's, and every header tells dead from live, though other threads have swept the descriptors |
| PortableParallel.SweepsKeep | collector/portablems.c:438-515 | each step of each sweeping thread keeps this, its own list and pools in order, and what every other thread relies on |
| PortableParallel.RunKeeps | collector/portablems.c:656-675 | hence along every run of any number of threads from marking through the last meeting to the clearing of all free lists |
| PortableParallel.CanSweep | collector/portablems.c:438-515 | a thread that has not swept all its pools can always go on |
| PortableParallel.WorkDrops | collector/portablems.c:438-515 | and every step lowers one measure, so that all come to wait at the last meeting |
| PortableParallel.SweptTogether | collector/portablems.c:656-675 | once all have swept, and all through the clearing, the heap is well formed with exactly the reachable objects, unmoved and unchanged, and maximal free nodes, whoever has swept which pool |
| PortableParallel.ListCleared | collector/portablems.c:518-525 | a thread that has cleared its list has in it exactly the free nodes of its own pools, once each, linked, sizes in place, whatever the others are doing |
| PortableFinishing.SweepEnds | collector/portablems.c:657-670 | from any state of the sweep, of which each thread has its pools and no pool is left out, the threads can go on until all have swept, met and cleared their lists, and then the heap has exactly the reachable objects, unmoved and unchanged, and as few free nodes as can be |
| PortableParallel.MarksLeft | collector/portablems.c:656-675 | an object is still marked afterwards if and only if it is live and in a pool that no thread sweeps |
| PortableParallel.LeftMarkLoses | collector/portablems.c:376-382 | and that can lose: in a well-formed heap an object marked from before is passed over, and its descriptor, reachable through it, stays unmarked |
| PortableParallel.ClearedTooSoon | collector/portablems.c:660-672 | clearing must wait for the last meeting: a thread about to read a size through a dead descriptor that has become a cleared node would read that node's size instead |
| PortableParallel.TooSoonRun | collector/portablems.c:660-672 | a run of two threads after which that would happen: eight is read for four |
| PortableFraming.ReachableStays | collector/portablems.c:351-432 | what is reachable depends only on the root slots and the reachable objects themselves |
| PortableAllocation.TakeFit | collector/portablems.c:61-89 | takes the first node that fits exactly or leaves at least four words, unlinks or splits it in place and clears the words taken; fails only when no free node will do |
| PortableAllocation.TakenListOk | collector/portablems.c:65-86 | the free list without the node taken, or with its rest in its place, is right: every free node once, sizes and links in place |
| PortableAllocation.CarveTiled | collector/portablems.c:71-86 | taking or splitting a node leaves the pools tiled without gap or overlap |
| PortableMutation.PlacedOk | collector/portablems.c:136-142 | the words taken, made an object, leave a well-formed heap and a right free list |
| PortableMutation.WriteOk | ggggc/gc-portablems.h:43-52 | a pointer store of null or an object's address, or any data store, leaves a well-formed heap |
| PortableKeeping.NewPoolOk | collector/portablems.c:36-53 | a new pool is one free node at the front of a right free list; all objects stay as they are |
| PortableMs.Collector.Collect0 | collector/portablems.c:543-675 | over any run: every reachable object keeps its address and contents, the objects left are exactly the reachable ones, nothing outside the pools changes, no two free nodes are neighbours, they are listed in the order of the pools, and free words plus survivors are all words |
| PortableMs.Collector.MallocRaw | collector/portablems.c:56-133 | looks, collects, looks, adds a pool, looks, in that order and each only because the look before found no node that fits: it returns the first node that fits, cleared, in the heap of the last look, or is out of memory with everything left reachable, no free node large enough, and every chance of another pool used; whatever was reachable is where and as it was |
| PortableKeeping.FoundAtOnce | collector/portablems.c:63-89 | when some node fits at the first look there is no other, so that pools, reserve and objects are as before |
| PortableKeeping.GrowsAfterCollecting | collector/portablems.c:91-113 | a thread that has pools gets another only after a collection of just those, in which everything left is reachable and no node fits |
| PortableKeeping.GivesUpAfter | collector/portablems.c:91-121 | how many looks an allocation in vain has made: one without any memory, four without pools at first, and three otherwise |
| PortableMs.Collector.Malloc | collector/portablems.c:136-142 | a new object, cleared, with the descriptor asked for, where no object was, in the first node that fitted at the last of such looks; all others and all reachable ones are kept |
| PortableMs.Collector.Write | ggggc/gc-portablems.h:43-52 | a store changes that word only and keeps the invariant |
| PortableMs.Collector.AllocateDescriptor | allocator.c:278-336 | a new descriptor that describes exactly what the bitmap says, in the first node that fitted at the last of such looks |
| Barriers.RunKeeps | gen-barriers.c:34-61 | along every run of any number of threads and rounds the posts and waits of both semaphores balance against the threads inside |
| Barriers.NoEarlyReturn | gen-barriers.c:34-61 | no thread has returned from a round that some thread has not entered |
| Barriers.WakeupsStayInRound | gen-barriers.c:42-58 | while a post of `waiters` is outstanding, whoever waits entered the same round as the thread that posts, so that nobody who came in again can take it |
| Barriers.NothingLeftOver | gen-barriers.c:36-58 | both semaphores are zero whenever the lock is free |
| Barriers.NoDeadlock | gen-barriers.c:34-61 | when all threads are inside, some step is possible |
| Barriers.WorkDrops | gen-barriers.c:34-61 | every step inside the barrier lessens what is left to do |
| Barriers.RoundCompletes | gen-barriers.c:34-61 | a round that all have entered ends within a bounded number of steps with every thread back, however they interleave |
| Barriers.RoundsCanBeMade | gen-barriers.c:34-61 | any number of rounds can be made, one after another, in each of which all threads call the barrier and all come back |
| Worlds.StepKeeps | threads.c:41-130 | every step of every thread, raw locks included, and every meeting at the barrier keeps the count equal to the threads that the barrier counts, the lists equal to the threads that belong in them, and the raw locks with threads that run or wait |
| Worlds.RunKeeps | threads.c:41-130 | hence along every run, with threads created, blocking, coming back, exiting and competing to collect |
| Worlds.CollectsAlone | collector/gembc.c:428-466 | while a thread collects every other counted thread has fed its roots and is at the last barrier or on its way to it, and the root lists hold each live thread exactly once, blocked ones included |
| Worlds.OneCollector | collector/gembc.c:428-432 | no two threads are in a collection |
| Worlds.AllMeet | collector/gembc.c:1301-1342 | when the barrier opens all counted threads are at it, and at the same one of its three uses |
| Worlds.FlagIsFresh | collector/gembc.c:460-463 | a running thread that sees the flag belongs to the collection that set it, whose thread still waits for it |
| WorldEnding.WorkDrops | collector/gembc.c:428-466 | whatever a thread does towards the end of a collection short of asking for another raw lock, and every meeting, lowers one measure |
| WorldEnding.CollectionEnds | collector/gembc.c:428-466 | when running threads yield before they ask for a raw lock: from any reachable world with a collection under way at most so many steps are taken, however they interleave, and when none is left the collection is over and all threads run or block freely, or it is stuck on a raw lock |
| WorldEnding.StuckForever | allocator.c:232-265 | once a thread waits for a raw lock whose holder waits at the barrier, no step of any thread changes that |
| WorldEnding.NeverEnds | allocator.c:232-265 | hence along every run from there the collection stays at its first meeting |
| WorldEnding.StuckRun | allocator.c:232-265 | a run of two threads from the initial world that gets stuck: one takes the raw lock, the other begins to wait for it, and the first collects |
| WorldEnding.WhenItSticks | allocator.c:423-437 | when running threads yield before they ask for a raw lock: a collection that gathers the threads can get stuck if and only if some thread waits for a raw lock that another has, or waits for too |
| WorldEnding.UncontendedEnds | collector/gembc.c:428-466 | when no such wait exists at its beginning and no thread asks for a raw lock any more, the collection ends within that many steps |
| WorldSticking.WhenItMayStick | allocator.c:232-265 | whatever steps the threads take while one of them gathers the others: the collection can get stuck if and only if there are a raw lock and two threads such that the one has not come to the barrier and the other has the lock, or has not come to the barrier either |
| WorldSticking.WithoutRisk | allocator.c:232-265 | otherwise no steps of any threads get it stuck, and from wherever they have brought it it ends, within a bounded number of steps, as soon as running threads yield |
| WorldSticking.UncontendedMayStick | allocator.c:232-265 | the condition for threads that yield first is not enough: a world in which nobody waits for a raw lock, and the collection can get stuck all the same |
| WorldSticking.WhenItCanEnd | allocator.c:232-265 | a collection that is under way can be brought to an end if and only if no thread waits for a raw lock whose holder is at the barrier, or is the collector on its way there |
| WorldSticking.DoomedForever | allocator.c:232-265 | and along every run from a world where one does, the world's lock is never given back |
| WorldServing.WhenServed | threads.c:41-107 | a thread that asks for the world's lock, to block, come back, create, exit or collect, wherever the others are and even in the midst of a collection, can come to have it if and only if no thread waits for a raw lock whose holder is at the barrier or on its way there to collect |
| WorldServing.FreeServes | threads.c:41-107 | in particular whoever asks can have it whenever it is free |
| WorldServing.HeldUpForever | allocator.c:232-265 | and while a thread is held up so, the lock stays taken along every run |
| WorldServing.BlocksAndComesBack | threads.c:51-107 | a thread that blocks and comes back, with the lock free, leaves the count, the lists and all threads as they were |
| WorldServing.ComesBack | threads.c:75-107 | a blocked thread can come back whenever the lock is free: it is counted, and only its node has gone from the lists |
| WorldServing.Creates | threads/posix.c:57-69 | a thread can create another whenever the lock is free: the child is counted, and then runs |
| WorldServing.Exits | threads.c:40-46 | a thread can exit whenever the lock is free, and is counted out |
| WorldServing.StopsTheWorld | collector/gembc.c:428-466 | a thread can begin to collect whenever the lock is free, whatever raw locks it has: then the flag is up, and the blocked threads and it are in the root lists |
| HashMaps.HashMap.Get | collections/map.c:23-46 | returns the value last put under the key, or reports that none ever was |
| HashMaps.HashMap.Put | collections/map.c:49-121 | after it the map stands for the same puts and this one; four buckets when it had none, twice as many when more than half were used, and as many as before otherwise; load and chains are right again, through any rehash |
| HashMaps.Rehash | collections/map.c:73-85 | relinks every entry into the new buckets in place: none lost, none twice, each in the bucket of its key, keys and values untouched |
| HashMaps.HashMap.MakeRoom | collections/map.c:60-89 | a map with no buckets gets four, a full one twice as many; afterwards there is room for one entry |
| HashMaps.HashMap.Clone | collections/map.c:124-173 | the clone stands for the same puts and shares no entry with the original, which is unchanged |
| HashMaps.UsedCountsKeys | collections/map.c:116-118 | `used` is the number of different keys ever put |
| HashMaps.PutNew | collections/map.c:107-114 | an entry for a new key answers for it and for no other |
| HashMaps.SameKeyLast | collections/map.c:36-43 | keys that compare equal have the same value |
| Worklists.Worklist.Add | ggggc-internals.h:150-153 | pushes one word on an unbounded stack, whatever chunks that takes |
| Worklists.Worklist.Pop | ggggc-internals.h:154-158 | pops the newest word, back into the chunk before when one is used up |
| Worklists.Worklist.Empty | ggggc-internals.h:154-158 | `used == 0` in the current chunk if and only if nothing is left |
| Worklists.Worklist.Init | ggggc-internals.h:123-134 | empties the stack from whatever state, keeping its chunks |
| Worklists.Worklist.NextChunk | ggggc-internals.h:135-149 | goes on to an old or a new chunk after a full one, losing no word |

## Left out

* Finalizers, internal and external tags, JIT pointer stacks, debug corruption checks and reports: optional features.
  The full collection's finalizer test reads the forwarding bit, which says nothing about liveness there.
* `allocator/*.c`, `ggggc_newPool`, `ggggc_freeGeneration` and the thread wrappers of Windows and macOS: foreign calls. A pool is a part of the array.
* Heap growth: `ggggc_expandPoolList` and the second half of `clearFreeList` (`collector/portablems.c:527-539`) only add
  pools, as `PortableMs.Collector.AddPool` does. For `gembc` the lists of pools are fixed, so a generation's first pool is never made on demand.
* `survivors` counters of `gembc` pools, which steer that growth alone.
* Several threads' pools at once in the heap models: the collectors are modelled for the thread that collects while
  `Worlds` proves that it does so alone and has every thread's roots and pools. Generation 0 is one list of pools there.
* In `portablems`, whole collections that begin with marks left from one before: the code marks the pools of blocked threads and does not
  sweep them in that cycle. Which marks stay is `PortableParallel.MarksLeft`, what they do to the next marking
  `PortableMarking.WhenMarksLose`; the collections of `PortableMs` and those of `PortableParallel` begin without any.
* In `PortableParallel`, the reading of a live object's size for the survivor count (`collector/portablems.c:471`), just before the one that is modelled.
* Re-initialising the barrier while another thread is still leaving it, and creating it on first use: `Barriers` has a fixed
  number of threads, and `Worlds` a barrier that all counted threads pass at once.
* Semaphores and mutexes themselves, which are taken as given, and threads that fail to start.
* The marking and scanning loops of both collectors keep their worklist as a sequence; that the chunks behave like one
  is `Worklists`, proved apart.
* `collections/list.c`, descriptor slots, `push.h`, the C++ templates, tests and benchmarks: mostly easy members, or no algorithm.
- Gembc.Collector.Malloc: retries up to a given number of collections, any number, where the code has no bound (and grows the heap); it reports failure after them, with what that means.
- Gembc.Collector.AllocateSelfDescriptor: has the same bound on its collections.
- Gembc.Collector.WritePointer: requires the value to be null or an object's address, which in C is up to the mutator.
- BreakTables.Sort: stands for the C library's `qsort` and shares only its contract.
- DescriptorTowers.Tower.DescriptorDescriptor: has no other threads, so the lock around the table is not taken here (`Worlds` and `WorldEnding` have it, as a raw lock); the table's entries are on the pointer stack from the start, null, instead of from when they are made; each allocation has a bound on its collections.
- DescriptorTowers.Tower.PointerArrayDescriptor: leaves out size 0, for which the code would clear a bit of a buffer of no words (`allocator.c:380-413`); an array has its header and its length, size 2, at the least.
- Gembc.Collector.AllocateDescriptor: has the same bound on its collections; what holds of other variables while the descriptor is made is in `Preserves` and `IsPlaced`; the local variable for the descriptor's descriptor is one that is not on the pointer stack yet.
- PortableMs.Collector.AllocateDescriptor: the table of descriptors of descriptors is modelled on `gembc` only.
- HashMaps.HashMap.Put: keys and values are not garbage-collected objects here, and allocation in the midst of it does not collect; `hash` and `cmp` are functions of the key, so a hash that depended on a key's address is outside the model.
- HashMaps.HashMap.Clone: an entry is filled when it is allocated, not in the turn after.
- Worlds.CollectsAlone: is safety alone; that the collection ends is `WorldEnding.CollectionEnds`.
- WorldEnding.CollectionEnds: supposes that a running thread which sees the flag yields before it asks for a raw lock; one that asks first can get the collection stuck for ever, exactly as `WorldSticking.WhenItMayStick` says. A thread that never takes a step keeps it waiting, as no scheduler is promised.
- WorldEnding.WhenItSticks: speaks of such runs alone, and `WorldSticking.WhenItMayStick` of all. Raw locks are taken in one order, as the descriptor tables' and the slots' locks are.
- WorldEnding.UncontendedEnds: speaks of such runs alone; `WorldSticking.UncontendedMayStick` shows that this matters, and `WorldSticking.WithoutRisk` is what holds of all runs.
- Barriers.NoDeadlock: the two semaphores wake any waiter, and no order is promised.
