# Crabos, modelled and proved in Dafny

Crabos is a small x86-64 kernel in Rust with its own collections. This project models its four
hardest parts and proves what they promise. `dafny verify dfyconfig.toml` checks everything.

**The B-tree map** (`alloc_collections/src/btree`). Node storage is an explicit arena from addresses
to nodes with keys, values, edges, a parent and a parent index. Following a pointer needs its address
to be live, so every read after a free would fail to verify. A ghost tree says what the arena
represents; the operations of `node.rs` and the loops of `map.rs` are methods over the arena, proved
against functions on trees, and `BTreeMaps.BTreeMap` is proved against finite maps. Several maps
share one arena, and every operation says which nodes it may touch.

| files | what they hold |
|---|---|
| BTreeTrees, BTreePaths, BTreeRep, BTreeOrder, BTreeTop, BTreeSpine, BTreeCursor | trees as values, paths, representation, order, whole trees, leaf edges |
| BTreeSurgery, BTreeMerge, BTreeHeap | node storage: class `Heap`, the operations of `node.rs` |
| BTreeSearch, BTreeInsert, BTreeRemove, BTreeSplitOff, BTreeBorders, BTreeBuild, BTreeAppend, BTreeRange, BTreeIntoIter, BTreeMaps | searching and the operations of `map.rs` |
| Phys, Regions, Paging, Contexts, BootCounts | frames and their counts, memory regions in bytes, page tables, page contexts, the switch to counting |
| AtomicLists, AsyncMutexes, Scheduling, Tasks | the lock-free list, the async mutex, round robin, the task state machine |
| SlabSizes, Slabs, Fat16 | the slab and page allocators, reading files |
| Wrappers, Sequences | Option, and lemmas on sequences |

The invariants worth knowing: `BTreeMaps.IsMap` (parent links, uniform depth, sorted keys, 4 to 11
keys in every node but the root, exact length), `Phys.Sound` and `Phys.Conserved` (counts equal
outstanding references, the free list is duplicate-free and holds only unreferenced frames, no frame
is lost), `Paging.Tables` (the tables form trees hanging off the contexts, each entry holds one
reference), `AtomicLists.Ok`, `AsyncMutexes.Inv`, `Tasks.Sound` and `Tasks.Clean`, `Slabs.Ok`.

## Findings

Where a promise does not hold of the code, there is an input for which it fails and the exact
condition under which it holds.

| what fails | input | holds exactly if |
|---|---|---|
| The physical allocator hands out whole frames, each once. `phys_init` takes the BIOS memory map as it is. | `Regions.PartialFrame`: a region that ends at 0x101200; `Regions.FrameTwice`: regions 0x100000..0x200000 and 0x180000..0x280000 both hand out 0x180000 | the non-empty regions begin and end on frame boundaries and do not overlap (`Regions.SafeExactly`; for one region `Regions.RegionWhole`) |
| After `init_ref_counts` every count equals the references outstanding. The walk yields cr3, and cr3 is counted once more after it. Latent: the top table the kernel boots with is in .bss (`kernel/src/start.asm:250`), below the boundary passed to `phys_init` (`kernel/src/start.asm:152`). | `BootCounts.ManagedTop`: a top table in a managed frame ends up with a count of two and one reference | the top table lies in no managed region (`BootCounts.InitRefCounts`, `BootCounts.RightUnlessTop`), as below the boundary (`Regions.LoaderOutside`) |
| A task goes on with the frame saved last. A second `lock()` poll without memory for its list cell ends with an error, and leaves the waker of the first poll in the list. It takes a holder that waits: the only async mutex in use, `File.seek`, has holders that never yield, as the disk driver does not await, so no `lock()` is pending today. | `Tasks.LostFrame`: under a holder that waits, the frame of a task in user mode is overwritten by `Wake` | a task that runs is in no waker list (`Tasks.RunKeeps`), and a refused poll leaves no waker of its own behind (`Tasks.RefuseKeeps`, `Tasks.OpKeeps`, and over whole runs `Tasks.FrameCarried`) |
| After a read the file is at the byte behind those copied. The sector number is reset before the table is read. | `Fat16.TableErrorRewinds`: after an error in the table the last cluster is read again | the read does not come to a cluster's end with the table's sector for it bad, before any other bad sector (`Fat16.Resumes`; `Fat16.TableFails` says where, from the disk, the cursor and the length alone) |
| A read that ended with an error can be repeated. The count of the bytes copied before the error is not reported. | `Fat16.DataErrorSkips`: the second of two clusters cannot be read, and the first one's bytes are passed over | the first sector of data needed is the bad one, or the read began at the start of the very cluster at whose end the table fails (`Fat16.Repeats`) |
| A read to the end yields as many bytes as the directory entry says. `read` does not look at the size. | `Fat16.SizeIgnored`: 1024 bytes of a file of 1000 | the size is that of all clusters of the chain (`Fat16.SizeRight`) |
| The root directory ends before the first cluster. The sector count is rounded down. | `Fat16.RootOverlaps`: one root entry, and no sector for it | the number of root entries is a multiple of 16 (`Fat16.RootBeforeClusters`) |

The constant `MIN_LEN` is 5, but insertion splits a full node into 6 and 4 keys, so 4 is the lower
bound the map keeps; after `append` it is 5 (`BTreeBuild.FixRightEdge`).

## Model

| member | source | states |
|---|---|---|
| BTreeMaps.BTreeMap.Insert | alloc_collections/src/btree/map.rs:676-684 | for every map and key, the contents become the old ones with the key set; the old value comes back if there was one; the whole invariant holds again and no other map's nodes are touched |
| BTreeInsert.VacantInsert | alloc_collections/src/btree/map.rs:2157-2196 | however many splits it takes, up to a new root, the entry is at its gap and nothing else moved; depth is uniform, nodes have 4 to 11 keys, links are right |
| BTreeMaps.BTreeMap.Remove | alloc_collections/src/btree/map.rs:704-721 | the contents lose exactly the key, the old value comes back, the invariant holds again |
| BTreeRemove.RemoveKv | alloc_collections/src/btree/map.rs:2354-2398 | an entry in a leaf or in an internal node goes, by way of its successor and any chain of merges, and all others stay in order; the tree is whole again, with the root popped if it ran empty |
| BTreeRemove.HandleUnderfullNode | alloc_collections/src/btree/map.rs:2408-2438 | the node was the root, was merged, or got an entry from a sibling; the case of a parent without other kids does not arise; only a root can be left empty |
| BTreeMaps.SizeBound | alloc_collections/src/btree/map.rs:2354-2438 | a map of height h > 0 has at least 2 * 5^h - 1 entries |
| BTreeMaps.BTreeMap.SplitOff | alloc_collections/src/btree/map.rs:999-1054 | self keeps exactly the keys below the given one, the result has exactly the others, both are whole maps with exact lengths and no node in common |
| BTreeSplitOff.CutAt | alloc_collections/src/btree/map.rs:1014-1040 | the loop cuts the entries at the key, and leaves two trees that are short at most along the cut |
| BTreeBorders.FixRightBorder | alloc_collections/src/btree/map.rs:1099-1122 | a tree short along its right border is whole again with the same entries; each bulk steal finds enough to take |
| BTreeBorders.FixLeftBorder | alloc_collections/src/btree/map.rs:1125-1147 | the same for the left border |
| BTreeBorders.Dfs | alloc_collections/src/btree/map.rs:1057-1084 | recounts the entries exactly |
| BTreeMaps.BTreeMap.Append | alloc_collections/src/btree/map.rs:749-773 | the contents become the union, other wins on equal keys, other is empty; both maps keep the invariant |
| BTreeAppend.MergeIsUnion | alloc_collections/src/btree/map.rs:2440-2462 | merging two sorted runs, the right one first on equal keys, gives the sorted run of the union of their maps |
| BTreeAppend.FromSortedIter | alloc_collections/src/btree/map.rs:898-946 | all entries are pushed in order while the two old trees are freed node by node; left of the last path every node is full |
| BTreeBuild.PushSorted | alloc_collections/src/btree/map.rs:902-944 | one entry goes behind all others, to the last leaf or to the lowest node above it with room, with a new blank branch |
| BTreeBuild.FixRightEdge | alloc_collections/src/btree/map.rs:948-968 | every steal finds enough, entries stay, and then every node but the root has at least 5 keys |
| BTreeMaps.BTreeMap.Get | alloc_collections/src/btree/map.rs:560-568 | the value of the key, or nothing if it has none |
| BTreeSearch.SearchTree | alloc_collections/src/btree/search.rs:39-57 | the walk ends at the key's pair, or at the leaf gap whose neighbours enclose it |
| BTreeSearch.SearchLinear | alloc_collections/src/btree/search.rs:75-89 | the index of the key, or of the first larger one |
| BTreeSearch.NotFound | alloc_collections/src/btree/search.rs:39-57 | where the walk goes down to a leaf gap, everything before it is smaller, everything after it larger, and the key is not in the map |
| BTreeSearch.FoundEntry | alloc_collections/src/btree/search.rs:45-50 | a pair found belongs to the map under that key |
| BTreeMaps.BTreeMap.RangeOf | alloc_collections/src/btree/map.rs:804-812 | panics exactly if both ends are bounded and the start is greater, or equal with both excluded, and then no key is within the bounds; else the iterator has exactly the entries within them, in order |
| BTreeRange.NoneWithinBad | alloc_collections/src/btree/map.rs:1743-1754 | no key whatever is within bounds the search panics on |
| BTreeRange.RangeSearch | alloc_collections/src/btree/map.rs:1735-1807 | for all bounds but the bad ones, the two leaf edges enclose exactly the entries within them; the panic for an ill-defined order is not reached |
| BTreeRange.EdgesInOrder | alloc_collections/src/btree/map.rs:1790 | in a sorted node the lower edge never lies behind the upper one, so that panic needs an unsorted tree |
| BTreeRange.Range.Meet | alloc_collections/src/btree/map.rs:1439-1445 | front equals back exactly when nothing is left |
| BTreeRange.Range.Next | alloc_collections/src/btree/map.rs:1478-1508 | the first entry left, in any interleaving with NextBack |
| BTreeRange.Range.NextBack | alloc_collections/src/btree/map.rs:1509-1549 | the last entry left |
| BTreeCursor.OneEdge | alloc_collections/src/btree/map.rs:1439-1445 | leaf edges correspond one to one to the gaps between entries |
| BTreeIntoIter.IntoIter.Next | alloc_collections/src/btree/map.rs:1291-1325 | the first entry left; the nodes that are done with are freed, each once, and no freed node is read |
| BTreeIntoIter.IntoIter.NextBack | alloc_collections/src/btree/map.rs:1332-1366 | the last entry left, likewise |
| BTreeIntoIter.IntoIter.Drop | alloc_collections/src/btree/map.rs:1270-1287 | after any interleaving of the two, exactly the nodes still alive are freed; the shared root is not |
| BTreeMaps.OtherMapKept | alloc_collections/src/btree/map.rs:749-773 | a map is not touched by operations on another one |
| BTreeMaps.SortedUnique | alloc_collections/src/btree/map.rs:1669-1672 | sorted runs of the same map are equal, so comparing entry by entry decides whether two maps are equal, whatever the shape of their trees |
| BTreeHeap.Heap.InternalSplit | alloc_collections/src/btree/node.rs:1307-1352 | the pairs and edges behind the cut are a tree of their own whose kids know their new parent, and the node keeps the others |
| BTreeHeap.Heap.Merge | alloc_collections/src/btree/node.rs:1377-1444 | the left kid gets the pair and everything of the right one, whose address is freed; all parent links are right |
| BTreeHeap.Heap.BulkStealLeft | alloc_collections/src/btree/node.rs:1481-1539 | count pairs and edges go from the end of the left kid through the parent to the front of the right one; links are right |
| BTreeHeap.Heap.BulkStealRight | alloc_collections/src/btree/node.rs:1542-1600 | the mirror image |
| BTreeHeap.Heap.MoveSuffix | alloc_collections/src/btree/node.rs:1656-1685 | everything from an edge on goes to the empty node of the other tree |
| BTreeTrees.MergeEntries | alloc_collections/src/btree/node.rs:1377-1444 | merging keeps the entries and their order |
| BTreeTrees.RegroupEntries | alloc_collections/src/btree/node.rs:1449-1600 | so does stealing, single or in bulk, from either side |
| BTreeTrees.SplitEntries | alloc_collections/src/btree/node.rs:1248-1352 | splitting cuts the entries around the pair that comes out |
| Phys.PhysAllocator.Alloc | kernel/src/mem/phys.rs:131-142 | a zeroed frame nobody holds, with one reference to it: the head of the free list, or if that is empty the next one of the first region with room; none only if there is neither |
| Phys.PhysAllocator.AllocNew | kernel/src/mem/phys.rs:107-129 | the frame and the pointers are those of the first region with room |
| Phys.PhysAllocator.Drop | kernel/src/mem/phys.rs:144-161 | one reference less; the last one puts a managed frame at the head of the list, its link in its own memory, and nothing else changes |
| Phys.PhysAllocator.DecRef | kernel/src/mem/phys.rs:222-241 | the underflow panic is not reached; it says free exactly for the last reference to a managed frame |
| Phys.TakenFromList | kernel/src/mem/phys.rs:86-105 | taking the head keeps counts equal to references, the list chained through the frames, and every frame accounted for; the frame had no reference |
| Phys.Freed | kernel/src/mem/phys.rs:148-158 | so does putting a frame on the list |
| Regions.PhysInit | kernel/src/mem/phys.rs:271-307 | the regions cover exactly the usable bytes from the boundary on; it panics exactly if there are too many of them or the end of a usable entry overflows 64 bits |
| Regions.BumpRegions.AllocNew | kernel/src/mem/phys.rs:107-129 | in bytes: the address and the pointers that follow |
| Regions.RunGives | kernel/src/mem/phys.rs:107-129 | over a whole run exactly the addresses from each region's begin below its end, in steps of a frame, are handed out |
| Regions.RunDistinct | kernel/src/mem/phys.rs:107-129 | no address twice if and only if no two regions hand out the same one |
| Regions.OverlapShares | kernel/src/mem/phys.rs:271-307 | of two regions on frame boundaries: they share an address if and only if both are non-empty and overlap |
| Regions.RegionWhole | kernel/src/mem/phys.rs:107-125 | all frames handed out lie whole in the region if and only if it begins and ends on frame boundaries |
| Regions.SafeExactly | kernel/src/mem/phys.rs:271-307 | a whole run hands out whole frames of its regions only and none twice, if and only if the non-empty regions are on frame boundaries and disjoint |
| Regions.SafeInFrames | kernel/src/mem/phys.rs:271-307 | that is exactly what Phys asks of its regions |
| Regions.SameTaken | kernel/src/mem/phys.rs:107-129 | allocation in bytes and in frame numbers go together |
| Regions.PartialFrame | kernel/src/mem/phys.rs:281-298 | a region whose last frame is handed out in part |
| Regions.FrameTwice | kernel/src/mem/phys.rs:281-298 | two regions that hand out a frame twice |
| BootCounts.InitRefCounts | kernel/src/mem/phys.rs:163-177 | after the walk over tables built without counting, each count equals the references, but cr3's is one more; the invariant holds if and only if cr3 is not managed |
| BootCounts.EachPml4 | kernel/src/mem/page.rs:130-169 | the walk sees every reference a table entry holds, exactly once |
| BootCounts.HolderPlace | kernel/src/mem/page.rs:130-169 | every reference is at a place the walk comes by |
| BootCounts.RightUnlessTop | kernel/src/mem/phys.rs:169-176 | counts with cr3 twice are right if and only if cr3 is not managed |
| BootCounts.ManagedTop | kernel/src/mem/phys.rs:163-177 | a sound state whose top table is managed, and whose counts come out wrong |
| Paging.RecursiveWalk | kernel/src/mem/page.rs:107-127 | for every address, the walk of the entry addresses through slot 511 ends at the very entry the address's own walk uses, level by level |
| Paging.EntryIndices | kernel/src/mem/page.rs:109-127 | the indices and the offset of each entry address |
| Paging.OneWay | kernel/src/mem/page.rs:256-303 | a leaf table is reached for one stretch of addresses only, in one context or in all if it is the kernel's |
| Paging.LeafEffect | kernel/src/mem/page.rs:294-299 | writing a leaf entry changes one page and no other, in exactly the contexts that share it |
| Paging.KernelAlike | kernel/src/mem/page.rs:63-66 | two contexts that share a top entry translate alike below it |
| Contexts.MmuFindsLeaf | kernel/src/mem/page.rs:256-303 | the processor's walk agrees with the look-up in the table tree |
| Contexts.KernelTranslates | kernel/src/mem/page.rs:54-86 | once the kernel half is linked, all contexts there are translate each of its addresses alike |
| Contexts.PageTables.Map | kernel/src/mem/page.rs:256-303 | AlreadyMapped exactly if the page is; on success exactly one page changes, in all contexts that share it, and the entry holds the reference; else no page changes, whatever tables were linked, and the reference is given back; the kernel slots of no context are written again |
| Contexts.PageTables.IsMapped | kernel/src/mem/page.rs:227-254 | whether the page has an entry, read through the self map |
| Contexts.PageTables.Unmap | kernel/src/mem/page.rs:349-366 | exactly that page goes and its reference is given back, or nothing changes |
| Contexts.PageTables.Modify | kernel/src/mem/page.rs:368-375 | exactly that page's flags change, its frame stays, or nothing changes |
| Contexts.PageTables.InitKernelPml4Entries | kernel/src/mem/page.rs:74-86 | all kernel slots are linked, no page changes; or it panics with all memory gone |
| Contexts.PageTables.NewCtx | kernel/src/mem/page.rs:54-72 | a context with an empty lower half and the kernel half of the current one; no other context changes |
| Contexts.PageTables.SetCtx | kernel/src/mem/page.rs:96-105 | cr3 takes over the reference, the old one is given back, and no page changes |
| Contexts.PageTables.CurrentCtx | kernel/src/mem/page.rs:88-94 | one more reference to the current top table |
| AtomicLists.ExactlyOnce | kernel/src/util/atomic_list.rs:23-72 | each item pushed is in no taker's share before a take, and in exactly one after it |
| AtomicLists.AtomicList.CompareAndSwap | kernel/src/util/atomic_list.rs:36-41 | succeeds exactly if the head is the one read before, even if cells were freed and reused meanwhile, and then the item is in front of all others; else the list is as before and the push starts over |
| AtomicLists.AtomicList.TakeIter | kernel/src/util/atomic_list.rs:47-50 | the taker has exactly the items of the list, which is empty; the other takers keep theirs |
| AtomicLists.AtomicList.Next | kernel/src/util/atomic_list.rs:57-72 | the first of the items the taker has left, in reverse order of the pushes, and the cell is freed; list and other takers are as before |
| AsyncMutexes.OneHolder | kernel/src/sync/async_mutex.rs:37-59 | at most one guard, and then the flag is set |
| AsyncMutexes.NoLostWakeup | kernel/src/sync/async_mutex.rs:37-74 | a waiter was woken since its push, or a releaser is about to wake it, or its waker is in the list while there is a holder or a releaser before its take |
| AsyncMutexes.Quiet | kernel/src/sync/async_mutex.rs:66-73 | when nobody holds or releases, every waiter has been woken |
| AsyncMutexes.SwappingKeeps | kernel/src/sync/async_mutex.rs:46-57 | the swap of the flag keeps all that |
| AsyncMutexes.AsyncMutex.Push | kernel/src/util/atomic_list.rs:36-41 | one step: the waker is in front of the list and its agent counts as not woken, or nothing changed yet |
| AsyncMutexes.AsyncMutex.Swap | kernel/src/sync/async_mutex.rs:46-57 | the flag is set; the agent holds the lock exactly if it was not set, and waits otherwise |
| AsyncMutexes.AsyncMutex.Clear | kernel/src/sync/async_mutex.rs:68 | the flag is not set any more |
| AsyncMutexes.AsyncMutex.Take | kernel/src/sync/async_mutex.rs:70 | the releaser has exactly the wakers that were in the list, which is empty |
| Scheduling.Served | kernel/src/task.rs:170-206 | between two turns of a task, every other one awake throughout gets one |
| Scheduling.RoundRobin | kernel/src/task.rs:170-206 | of the selection alone, for any sets of tasks awake: exactly one, if the first one is awake throughout too |
| Scheduling.AsleepBetween | kernel/src/task.rs:185-188 | of the selection alone: if it is not, the other one may get two; no task of this kernel ever sleeps |
| Tasks.Scheduler.EachOnce | kernel/src/task.rs:170-236 | in every state of the scheduler: between two consecutive turns of a task each other one present at the first had exactly one, and a later one at most one |
| Tasks.Scheduler.Choose | kernel/src/task.rs:208-243 | the next task's turn: its page context is loaded, and it is polled, or goes on in user mode with the frame saved for it last as long as no frame was lost |
| Tasks.Scheduler.FindNextWorkItem | kernel/src/task.rs:170-206 | the task with the least id above the previous one, or the least of all, and its state's work; the look-ups do not fail; none only without tasks |
| Tasks.Scheduler.Spawn | kernel/src/task.rs:61-104 | a new task in all three tables, awake and with the page context given, or all of them as before, wherever memory ran out |
| Tasks.Scheduler.SaveCurrentTask | kernel/src/task.rs:146-163 | a task in user mode has the frame given from now on, and no other state changes |
| Tasks.Scheduler.DispatchSyscall | kernel/src/task.rs:246-270 | the panics are not reached; the running task's state holds the trap's frame |
| Tasks.Scheduler.RunTask | kernel/src/task.rs:320-329 | the task is in user mode with the frame given |
| Tasks.Scheduler.PollResume | kernel/src/task.rs:357-372 | the trap's frame exactly if the task trapped, else pending |
| Tasks.Scheduler.PollLock | kernel/src/sync/async_mutex.rs:37-59 | the waker is listed and the lock got if free; without memory the poll is over with an error |
| Tasks.Scheduler.DropGuard | kernel/src/sync/async_mutex.rs:66-74 | the lock is free and its list empty, the other locks are as before, and exactly the tasks in the list are set to Wake |
| Tasks.NextGets | kernel/src/sync/async_mutex.rs:46-55 | whoever polls next after a guard was dropped gets the lock |
| Tasks.RunKeeps | kernel/src/task.rs:320-329 | run() keeps every saved frame safe if and only if the task's waker is in no list |
| Tasks.RefuseKeeps | kernel/src/sync/async_mutex.rs:41-44 | a refused poll keeps the lists clean if and only if it leaves no waker of its own |
| Tasks.OpKeeps | kernel/src/task.rs:145-270 | each operation keeps the frames, and the lists clean unless it leaves such a waker |
| Tasks.FramesKept | kernel/src/task.rs:145-293 | over whole runs without such a poll no saved frame is overwritten and the lists stay clean |
| Tasks.SavedIsCarried | kernel/src/task.rs:145-270 | over any run, what counts as a task's saved frame is the one of its last trap or run(), or of the last timer interrupt that met it in user mode |
| Tasks.FrameCarried | kernel/src/task.rs:145-293 | over whole runs without such a poll, a task in user mode has exactly that frame, and a task that trapped has its trap's frame until its future sees it |
| Tasks.LostFrame | kernel/src/task.rs:287-293 | a run in which a frame is lost |
| Slabs.Allocator.AllocLayout | kernel/src/mem/kalloc.rs:108-120 | panics exactly for what does not fit a page; else a new block, zeroed, aligned, large enough and mapped, or no memory; all users keep their blocks and what is in them |
| Slabs.Allocator.AllocUninitialized | kernel/src/mem/kalloc.rs:44-58 | the head of the list, or the last slot of a new page; after cutting up a page there is one, so the expect holds |
| Slabs.Allocator.Carve | kernel/src/mem/kalloc.rs:51-54 | all slots of the page are in the list, the last one first |
| Slabs.Allocator.FreeLayout | kernel/src/mem/kalloc.rs:128-130 | the block goes back to the class it came from; nobody else's memory changes |
| Slabs.LiveApart | kernel/src/mem/kalloc.rs:25-131 | blocks in use do not overlap, whatever their classes |
| Slabs.ListApart | kernel/src/mem/kalloc.rs:66-74 | no free object lies in a block in use |
| Slabs.LiveFits | kernel/src/mem/kalloc.rs:80-82 | a block in use is aligned as its layout asks and mapped to its end |
| Slabs.GivenOk | kernel/src/mem/kalloc.rs:66-74 | freeing keeps the lists chained through free memory, without duplicates, and free plus used equal to the slots of the pages |
| Slabs.AdoptedOk | kernel/src/mem/kalloc.rs:49-54 | so does giving a class a page: as many slots more as a page holds |
| Slabs.WrittenOk | kernel/src/mem/kalloc.rs:122-126 | nothing a user writes to its block disturbs a list |
| Slabs.PageWrittenOk | kernel/src/mem/kvirt.rs:103-109 | nothing a user writes to its page disturbs a list |
| Slabs.NoClass | kernel/src/mem/kalloc.rs:108-116 | no class fits exactly what is larger than a page |
| Slabs.LeastSize | kernel/src/mem/kalloc.rs:80-110 | the class found has the least power of two, from 16 on, that is large enough and aligned enough |
| Slabs.Allocator.AllocPage | kernel/src/mem/kvirt.rs:50-84 | the first free page, zeroed, or the next address, given whether there are a frame and tables; without tables the address is passed over |
| Slabs.Allocator.FreePage | kernel/src/mem/kvirt.rs:86-95 | the page is the first of the free pages, before all that were; only its first word changes |
| Fat16.File.Read | kernel/src/fs/fat16.rs:313-360 | on every volume, well-formed or not, the loop does what Run says: the bytes, the cursor, the way it ends, and the rest of the buffer stays |
| Fat16.ReadRight | kernel/src/fs/fat16.rs:313-360 | on a well-formed chain Run yields the next bytes of its flat contents, as many as asked for or all that are left, or stops at a disk error; it does not panic; where the cursor is then |
| Fat16.Resumes | kernel/src/fs/fat16.rs:318-330 | the cursor is at the byte behind those copied if and only if the table does not fail on the way, as the disk, the cursor and the length say beforehand |
| Fat16.RunFails | kernel/src/fs/fat16.rs:323-330 | a read ends in the table exactly if TableFails says so, and at the start of the cluster it names |
| Fat16.Repeats | kernel/src/fs/fat16.rs:313-360 | a read fails on the disk and leaves what it began with to be read again, if and only if its first data sector is bad or it is put back to the cluster start it began at |
| Fat16.DataErrorSkips | kernel/src/fs/fat16.rs:344-346 | a volume on which a failed read passes over a cluster |
| Fat16.TableErrorRewinds | kernel/src/fs/fat16.rs:323-330 | a volume on which it is not |
| Fat16.GoodRead | kernel/src/fs/fat16.rs:313-360 | without disk errors a read is short exactly at the end of the chain |
| Fat16.ReadsRight | kernel/src/fs/fat16.rs:313-360 | successive reads of any sizes yield consecutive pieces of the flat contents |
| Fat16.CutsAlike | kernel/src/fs/fat16.rs:313-360 | how they are cut does not matter |
| Fat16.WholeFile | kernel/src/fs/fat16.rs:276-288 | an opened file has all bytes of its clusters |
| Fat16.SizeRight | kernel/src/fs/fat16.rs:363-379 | reading to the end yields the directory entry's size if and only if that is the size of all clusters |
| Fat16.SizeIgnored | kernel/src/fs/fat16.rs:313-360 | a file of 1000 bytes that yields 1024 |
| Fat16.LinkIsEntry | kernel/src/fs/fat16.rs:85-114 | what follows cluster c is what bytes 2c and 2c + 1 of the table's first copy say, the low one first: from 0xfff8 on the end, 0xfff7 a panic, else the next cluster |
| Fat16.LinkBeyond | kernel/src/fs/fat16.rs:88-92 | cluster numbers beyond the table panic |
| Fat16.EntryInFat | kernel/src/fs/fat16.rs:85-106 | each entry of the table lies whole in one sector of the first copy |
| Fat16.RootBehindFats | kernel/src/fs/fat16.rs:464-478 | the sectors of all copies of the table are exactly those between the reserved ones and the root directory |
| Fat16.OneCluster | kernel/src/fs/fat16.rs:484-491 | from the end of the root directory on, each sector is one of exactly one cluster |
| Fat16.ClustersApart | kernel/src/fs/fat16.rs:484-491 | clusters share no sector and lie behind the root directory |
| Fat16.RootBeforeClusters | kernel/src/fs/fat16.rs:480-482 | the root directory's sectors hold its entries if and only if their number is a multiple of 16 |
| Fat16.RootOverlaps | kernel/src/fs/fat16.rs:480-491 | with one root entry the first cluster begins where the root directory does |

## Left out

- BTreeInsert.VacantInsert: assumes that memory does not run out; the code raises the length before a split that may fail. The same goes for every other operation of the map that allocates.
- BTreeMaps.BTreeMap.Insert: the pointer to the new value that `VacantEntry::insert` returns, and the entry wrappers around it.
- BTreeHeap.Heap.BulkStealLeft: the writes of one step are in another order than in the source, all pairs before all links.
- BTreeMaps.BTreeMap.RangeOf: `range_mut`, keys, values, hashing, comparison and formatting, which repeat the iterator; `clone`.
- Keys are integers: they stand for any total order, since the code only compares them. An order that is not total is not part of this model.
- Uninitialised memory, raw layouts, marker types and the alignment of the shared empty root: nodes are records in an arena.
- Phys.PhysAllocator.Alloc: asks for regions on frame boundaries that do not overlap; Regions says exactly when the memory map gives such regions, and what happens else.
- Phys.PhysAllocator.New: is asked only for frames that are held or not managed, as its own comment says.
- Regions.PhysInit: the pages for the counters, which `phys_init` maps after it has chosen the regions, and the panic for regions beyond 2^48 there.
- Contexts.PageTables.Map: addresses outside slot 511 and frames other than 0, whose entries would read as empty; access flags are kept but not interpreted; the translation cache, huge pages and `map_physical_memory` are not part of this model. The temporary mapping is direct access to the frame.
- Contexts.PageTables.SetCtx: the lower tables of a context that is dropped stay allocated, as in the code, whose `PageCtx` frees the top table only.
- BootCounts.InitRefCounts: what the loader maps before the kernel runs is any table tree, with no huge pages.
- AsyncMutexes.AsyncMutex.Poll: a future dropped while it is pending, and weaker orderings than the sequentially consistent ones the code uses.
- Tasks.Scheduler.Spawn: an insertion that fails leaves the table unchanged, which the map does not promise when memory runs out.
- Scheduling.RoundRobin: asks that the first task is awake throughout, being about the selection alone; Tasks.Scheduler.EachOnce needs no such thing.
- Tasks.Scheduler.PollLock: a poll is a sequence of operations of one task, rather than a compiled future; interrupts do not use wakers, and no task finishes or sleeps, as in the code.
- Slabs.Allocator.AllocPage: the answers of the frame allocator and of the page tables are parameters; nobody else maps pages behind the kernel's end, so the panic for a page already mapped does not arise. Addresses do not wrap around.
- Slabs.Allocator.FreeLayout: the layout is the one the block was got with. `Arc::drop`, which passes another one, is not part of this model.
- Fat16.File.Read: begins with the cursor's lock held; the lock is that of AsyncMutexes. Overflow of a cluster number below 2 panics, as in the debug build that the Makefile makes by default.
- Listing directories, names and deleted entries, and the stream of a cluster chain that leaves out the last cluster.
- Port I/O, disks, consoles, timers, loaders and assembly, system call glue and the user library.
