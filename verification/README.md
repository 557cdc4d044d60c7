# A verified model of the kernel's memory, processes and archive

The kernel is a small x86-64 teaching kernel: four-level paging with copy-on-write fork, a page-frame
allocator, a round-robin scheduler with fork, wait, exit and kill, a first-fit user heap, an exec that lays
out `argv` and `envp`, and a path tree built from a ustar archive. This project models that state in Dafny
and proves what the rest of the kernel relies on.

Code that changes tables, lists or bytes in place is a class with the same fields and the same loops
(`Mmu`, `BootMapper`, `UserMapper`, `Allocator`, `Heap`, `UserStack`, `Scheduler`, `FileSystem`). Its methods
are proved against functions or relations on values, and the main results are lemmas about those. A C
pointer is an address, a structure in memory is an entry of a map, and `KERNBASE + p` is direct access to
frame `p`.

`dafny verify dfyconfig.toml` checks everything.

## The parts

| modules | subject |
|---|---|
| `PageEntries`, `PageTables` | page-table words and their masks, the hardware walk, the invariant of the user half |
| `ForkCopy`, `ForkMeaning`, `CowFault`, `ExecClear` | what fork, the write fault and exec do to the tables |
| `PageMaps`, `RangeMaps` | opening and replacing tables, mapping a frame or a range, and when that keeps the invariant |
| `KernelSteps` | frames that the kernel takes, fills and returns, and the table of a new process |
| `CowRefinement`, `CowBits`, `VirtualMemory` | lazy copying refines eager copying; only fork marks pages; the C loops against those relations |
| `BootMap` | the boot direct map, on top of the allocator's boot list |
| `UserMap`, `UserMapTree`, `MapCalls`, `MapCallers` | mapping a range for a user process, among all processes, as steps of the copy-on-write machine, and after the allocation of its frames |
| `FrameAllocator`, `AllocatorRuns` | the free list with recycled descriptors, and every run of it |
| `UserHeap`, `HeapSafety`, `HeapRuns` | the coalescing free list, every run of malloc and free, and such runs on the linked headers |
| `ProcessLists`, `ProcessRuns`, `CallEffects`, `TimeSlices`, `Waiting`, `LostProcesses`, `Scheduler` | the process lists as sequences, every run of the calls, what each call does place by place, the slice budget, who can still be woken, runs that lose a process, and the pointer code |
| `CStrings`, `ExecStack` | strings in memory, and the frame exec leaves for `_start` |
| `Archive`, `Paths`, `FileTree`, `FileLookup` | the archive scan, the path tree, and their agreement |
| `Wrappers` | `Option`, the elements of a sequence, and sequences without repetition |

## Where the code departs from its intent

The model follows the code. Where that breaks a property, the exact condition under which it holds is proved:

- `do_malloc` leaves an exact fit at the head on the list; `do_free` merges on both sides but leaves the upper
  block linked, and drops a block below the head (`HeapSafety.MallocIsSafe`, `HeapSafety.FreeIsSafe`,
  `HeapSafety.FreeAddsUnits`, `HeapSafety.GuardsAreNeeded`); one short run loses 238 of 255 units
  (`HeapRuns.LosingTheHeap`). The rounding of a request wraps at 64 bits (`HeapSafety.PayloadIsLargeEnough`).
- `kfree` dereferences NULL exactly when no page is free or none is handed out (`FrameAllocator.Allocator.Kfree`,
  `AllocatorRuns.FreeAfterLastPage`); `initbump` leaves its list unterminated unless the bounds are whole pages
  apart (`FrameAllocator.Allocator.InitBump`).
- `clear_vmas`, which exec calls before `clear_uptentries`, frees a page twice (`AllocatorRuns.ClearVmasFreesTwice`).
  With any memory area that breaks the paging invariant (`KernelSteps.ExecFreesBreakWf`). So these frees are no step of
  the copy-on-write machine: its frees meet the condition of `KernelSteps.FreesKeepWf`, and its mappings that of
  `MapCalls.CallKeepsWf`. Its other steps are fork, loads, stores and their faults, `map_user_pml4`, `bump`, kernel
  stores to frames that nobody else uses, and `clear_uptentries`.
- `copy_page` sets the present bit before it tests it, so it stays inside the process's tables exactly when the
  upper levels are present (`CowFault.CopyPageStaysInTree`). The fault handler's test does not imply that
  (`CowFault.CowTestIsNotEnough`): after a fork it passes for every address below a used PML4 entry
  (`CowFault.CowTestAfterFork`).
- `map_user_pml4` takes the address for slot 510 from slot 0, which is empty, so the slot leads to frame 0x80000 and not
  to the new PML4 (`VirtualMemory.Mmu.MapUserPml4`); after a fork it leads back (`ForkMeaning.ForkCopiesTheTree`).
- `map_address_initial` covers its own tables exactly up to 511 * 512 pages in use (`BootMap.DirectMapCoversItself`).
- `map_user_address` maps one page more than asked, nothing for some sizes (`UserMap.PagesCover`), and replaces
  every page table after the first; it disturbs nobody exactly when those held nothing else
  (`UserMapTree.MappingDisturbsNobody`). It keeps the paging invariant exactly when nobody uses the frames but the
  tables it replaces (`MapCalls.CallKeepsWf`), and the page too many is one its callers did not allocate
  (`MapCallers.CallersAllocateEnough`, `MapCallers.OnePageTooMany`).
- An exit cuts the blocked list at the woken parent, so the processes in front of it are lost
  (`ProcessRuns.NoLostWakeUp`, `ProcessRuns.StepLosesNobody`, `LostProcesses.LosingAProcess`). Waiting for a child
  that is already dead, and killing a child somebody waits for, block the parent for good (`Waiting.WaitCanEnd`,
  `Waiting.KillStrands`). The ids and the wait flag of a new PCB are whatever its page held
  (`ProcessRuns.CreateKeepsInv`, `ProcessRuns.ForkKeepsInv`).
- `getsize` cuts the first digit's weight to 32 bits (`Archive.GetSizeIsExact`); `file_exist` compares two
  addresses and never finds anything, so a later entry of the same name is appended and the first one wins.
  `load_tarfs` stores names of up to six components, `find_file` finds those of up to four (`FileLookup.PathFits`).

## Model

| member | source | states |
|---|---|---|
| PageEntries.ViewIsInjective | include/sys/virtualmem.h:7-9 | the split of a 64-bit entry into frame, present, writable, user, COW and remaining bits loses nothing |
| PageEntries.MasksActOnFields | sys/virtualmem.c:357-366 | the masks of fork and fault, on all 64-bit values, change exactly the fields meant, and an entry is unused exactly when it is zero |
| PageEntries.KernelBits | sys/virtualmem.c:154 | masking an address and setting the two low bits gives a present, writable kernel entry of that frame, unmarked |
| PageEntries.UserBits | sys/virtualmem.c:273-349 | masking an address and setting the three low bits gives the entry that `map_user_address` and `copy_page` store: present, writable, for user code, and without the COW bit |
| PageEntries.CowTestBits | sys/idt.c:285-295 | on all 64-bit values, the handler tests bits 9 and 0, both of which must be set |
| PageTables.PageOfIsThePage | sys/virtualmem.c:453-456 | two addresses have the same four table indices exactly when bits 47 to 12 agree |
| BootMap.PageOfIsDigits | sys/virtualmem.c:453-456 | for every 64-bit address, the four indices are the base-512 digits of the page number, in this order |
| BootMap.PageNumberBits | sys/virtualmem.c:453-456 | the page number is bits 47 to 12 of the address |
| PageTables.ZeroTable | sys/virtualmem.c:376-378 | the clearing loop leaves the one table all zero and every other frame as it was |
| PageTables.WalkFollowsTree | sys/virtualmem.c:471-492 | for every place of the user half, the hardware walk finds a frame exactly when the table above is there and its entry is present, and the frame is that entry's |
| PageTables.WalkToPage | sys/virtualmem.c:453-500 | for every process and user address, the walk ends at the leaf entry's frame, and nowhere exactly when there is no entry |
| PageTables.SharedFrameIsReadOnly | sys/virtualmem.c:357-366 | under the invariant, a data frame that two pages of any processes map is writable through neither |
| ForkMeaning.ForkKeepsWf | sys/virtualmem.c:404-434 | fork keeps the invariant: tables of all processes form disjoint trees, apart from data and free frames |
| ForkMeaning.ForkCopiesTheTree | sys/virtualmem.c:368-434 | the child has a table exactly where the parent has one, every one a fresh frame unlike all old ones; slot 511 is shared, and slot 510, present and writable for the kernel, leads the walk back to the child's own PML4 |
| ForkMeaning.ForkMarksEveryLevel | sys/virtualmem.c:357-434 | at every level of the tree, each used entry of the parent stays but for its write permission and its mark, and the entry of the child is present, read-only, for user code and marked, and leads to the copy of the table or to the same page |
| ForkMeaning.ForkSharesEveryPage | sys/virtualmem.c:357-366 | every user address leads parent and child to the parent's old frame, read-only on both sides, with the COW bit in the leaf and in the PML4 entry |
| ForkMeaning.ForkLeavesOthers | sys/virtualmem.c:404-434 | no other process's walk or effective write permission changes |
| VirtualMemory.Mmu.DuplicatePageTable | sys/virtualmem.c:404-434 | the nested loops establish that fork relation and the invariant, given a free frame per table of the parent |
| VirtualMemory.Mmu.DuplicatePt | sys/virtualmem.c:357-366 | after the loop every entry of this table is shared and nothing else has changed |
| CowFault.FaultKeepsWf | sys/virtualmem.c:452-507 | both branches of the fault keep the invariant |
| CowFault.FaultedPage | sys/virtualmem.c:494-501 | the faulting page leads to the frame that headed the queue, writable at every level, by an unmarked entry and with the old frame's words; one frame net leaves the queue |
| CowFault.TouchedPage | sys/virtualmem.c:502-505 | an absent page gets the head of the queue, writable, by an unmarked entry and with whatever it held |
| CowFault.FaultLeavesOthers | sys/virtualmem.c:452-507 | every other page of every process keeps its frame, its leaf entry and its content, although upper levels become writable |
| CowFault.FaultChangesThePath | sys/virtualmem.c:462-505 | of all entries of all processes, the fault changes the one of the page, and the three above it, which become present, writable and for user code and keep their marks |
| CowFault.CopyPageStaysInTree | sys/virtualmem.c:462-483 | the function reaches a table of the process exactly when the upper three levels are present, and otherwise goes through frame 0 |
| CowFault.CowTestIsNotEnough | sys/idt.c:285-295 | a state that meets the invariant and passes the handler's test, but in which the upper levels are not present |
| CowFault.CowTestAfterFork | sys/idt.c:285-295 | after every fork the test passes in parent and child for exactly the addresses below a used PML4 entry of the parent, while both have a page table exactly where the parent had one |
| VirtualMemory.Mmu.CopyPage | sys/virtualmem.c:452-507 | the code establishes the relation of its branch and the invariant |
| ExecClear.ClearUnmapsCaller | sys/process.c:292-323 | afterwards no user address of the caller is translated, and slots 510 and 511 stay |
| ExecClear.ClearedTablesAreEmpty | sys/process.c:292-323 | every user-half entry of every table the caller had is zero |
| ExecClear.ClearLeavesOthers | sys/process.c:292-323 | every other process keeps its translations, write permissions and contents |
| ExecClear.ClearKeepsWf | sys/process.c:292-323 | clearing keeps the invariant |
| VirtualMemory.Mmu.ClearUptentries | sys/process.c:292-323 | the four nested loops establish that relation |
| CowRefinement.FaultTakesCowBranch | sys/idt.c:285-295 | every write to a mapped page that the MMU refuses passes the handler's test and finds the upper levels present |
| CowRefinement.WriteChangesOneWord | sys/idt.c:327-332 | a store, with the fault in front of it when the MMU refuses, changes one word of one page of one process as seen by all of them |
| CowRefinement.StepRefines | sys/virtualmem.c:260-507 | each fork, load, store, touch of an absent page, opening or replacing of tables, mapping of an unused frame, new process, `bump`, kernel store to a frame nobody else uses, return of unused frames, and `clear_uptentries` does to what the processes see what it does when fork copies every page |
| CowRefinement.RunRefinesEager | sys/virtualmem.c:260-507 | over every run of these steps, each process sees exactly the memory it would see had every fork copied every page, and the invariant holds throughout |
| CowRefinement.RunFromBoot | sys/main.c:40-62 | so it does over every run from boot, when no process exists, whatever memory holds |
| KernelSteps.TakingKeepsWf | sys/allocator.c:60-89 | taking frames from the queue keeps the invariant and every table, and nobody but the caller uses them |
| KernelSteps.FreesKeepWf | sys/allocator.c:179-198 | a series of frees keeps the invariant exactly when the frames are all different and not free, no table and mapped by no page |
| KernelSteps.ExecFreesBreakWf | sys/process.c:346-347 | the frees of `clear_vmas` that precede the clearing break the invariant whenever there is a memory area |
| KernelSteps.SpawnKeepsWf | sys/virtualmem.c:436-450 | the first table of a process keeps the invariant: a new tree with an empty user half, and nothing else changes |
| VirtualMemory.Mmu.MapUserPml4 | sys/virtualmem.c:436-450 | the two loops make that table: the kernel's slot 511, and a slot 510 that leads to frame 0x80000 |
| VirtualMemory.SlotOfEmptyTable | sys/virtualmem.c:446-447 | on the 64-bit value: what is stored in slot 510 when slot 0 is empty |
| VirtualMemory.Mmu.ReadWord | sys/virtualmem.c:357-507 | a load of a mapped page is a load step of that machine |
| VirtualMemory.Mmu.WriteWord | sys/idt.c:327-332 | the write path of the code is a store step of that machine |
| VirtualMemory.Mmu.TestsTheSlot | sys/idt.c:285-295 | for every process, `is_cow_enabled` answers the test that the results about faults speak of |
| VirtualMemory.HandlerAfterFork | sys/idt.c:285-295 | after a fork it answers 1, in parent and child, exactly for the addresses below a used PML4 entry of the parent |
| VirtualMemory.HandlerLedAstray | sys/idt.c:285-295 | a state in which it answers 1 for a page whose directory is absent |
| CowBits.NothingIsRefused | sys/idt.c:285-295 | without a marked entry no access passes the test, and every mapped user page is writable |
| CowBits.StepHasNoCow | sys/virtualmem.c:260-507 | no step of the copy-on-write machine but fork marks an entry |
| CowBits.NoForkNoCow | sys/virtualmem.c:260-507 | over every run from boot without a fork, no entry of any process carries the COW bit |
| VirtualMemory.HandlerWithoutFork | sys/idt.c:285-334 | so in all these runs `is_cow_enabled` answers 0, for every process and address |
| BootMap.KernelBase | include/sys/virtualmem.h:40 | the table indices of KERNBASE |
| BootMap.NextDigits | sys/virtualmem.c:113-152 | the nested carry is the successor of a base-512 number, digit by digit |
| BootMap.WalkOfTree | sys/virtualmem.c:60-96 | when every level leads to the next in address order, a walk ends at the page for exactly the mapped addresses |
| BootMap.KernelPath | sys/virtualmem.c:60-154 | on the way to a mapped page every entry lets the kernel write and gives user code nothing |
| BootMap.BootMapper.MapAddressInitial | sys/virtualmem.c:59-161 | on an empty PML4 the loop maps the pages from the given one to the cursor and one more per 512, each where a walk looks for it across every table boundary, and nothing else, by entries of the kernel only; the cursor moves by exactly the tables needed |
| BootMap.BootMapper.InitPaging | sys/virtualmem.c:522-525 | with at most 511 * 512 pages in use, KERNBASE + p leads to p for every page below the cursor, new tables included; the tables come from the allocator's queue, which starts at the cursor |
| BootMap.StartPaging | sys/main.c:40-52 | from `initbump` to `init_after_paging`: every page that holds a descriptor of the free list is directly mapped, and the queue is every page behind the new tables |
| BootMap.DirectMapCoversItself | sys/virtualmem.c:98-113 | the map covers its own tables exactly up to 511 * 512 pages in use |
| UserMap.PagesCover | sys/virtualmem.c:301-315 | the loop's pages cover the size, except exactly for multiples of 512 below 4096, which map nothing; 4096 maps two pages |
| UserMap.UserMapper.MapUserAddress | sys/virtualmem.c:260-355 | within 1 GB and given exactly the frames it takes: where every page of that gigabyte leads afterwards, the tables on the path (those there before, or free frames), that the PML4 and the PDPT change in one entry each, the frames left in the queue, which frames change at all, and the exact memory |
| UserMap.RangeIsMapped | sys/virtualmem.c:336-350 | every page of the range leads to its frame, except for pages of the first table that were mapped, which stay; earlier pages and pages outside the range, of that gigabyte, stay exactly when every page of a later table was unmapped or already led there |
| UserMapTree.TreeIsRegionOk | sys/virtualmem.c:260-275 | every process of a state that meets the invariant meets what the method needs of its tables |
| UserMapTree.OthersKeepTheirPages | sys/virtualmem.c:260-355 | no user address of another process or another gigabyte is translated differently, and no mapped page of anybody loses its content |
| UserMapTree.MappingDisturbsNobody | sys/virtualmem.c:317-350 | over all user addresses of all processes, mapped pages stay and pages outside the range are neither mapped nor unmapped, exactly when every page of a later table was unmapped or already led there |
| PageMaps.PutKeepsWf | sys/virtualmem.c:347-349 | mapping one page keeps the invariant exactly when it was mapped already or nobody uses the frame |
| PageMaps.RenewKeepsWf | sys/virtualmem.c:319-346 | a new page table in the place of an old one keeps the invariant, and changes no other leaf entry |
| RangeMaps.RangeKeepsWf | sys/virtualmem.c:317-350 | for a range over any number of tables, mapping keeps the invariant exactly when each page was mapped or nobody uses its frame |
| PageMaps.WayChangesNoLeaf | sys/virtualmem.c:271-299 | opening the tables on the way changes no leaf entry and no data page of any process |
| MapCalls.CallIsMachineStep | sys/virtualmem.c:260-355 | for every range within a gigabyte, the code leaves exactly the memory and the queue of opening the way, replacing the later tables and mapping the pages |
| MapCalls.CallKeepsWf | sys/virtualmem.c:260-355 | such a call keeps the invariant exactly when, before it, every page was mapped in the first table or has a frame that nobody uses but the tables that are replaced and their pages |
| MapCalls.CallIsRun | sys/virtualmem.c:260-355 | when that holds of each page by the time it is put, the call is a run of the copy-on-write machine |
| MapCallers.FreeFrameBreaksWf | sys/virtualmem.c:347-349 | if a page that was not mapped gets a frame that is still in the queue, the invariant is broken, whatever the tree is taken to be |
| MapCallers.CallersAllocateEnough | sys/tarfs.c:90-92 | the frames that loadelf and the heap allocate suffice for the pages that are mapped exactly for sizes that are no whole number of pages and need at most 512, or that are below 4096; for 4096 bytes one is allocated and two are mapped |
| MapCallers.AllocateAndMapKeepsWf | sys/tarfs.c:90-92 | allocating pages in a row and mapping a range to them keeps the invariant exactly when the pages behind those allocated are fine |
| MapCallers.OnePageTooMany | sys/tarfs.c:90-92 | with a queue of consecutive pages, exactly when each of those was mapped already |
| MapCallers.LoadingIsRun | sys/tarfs.c:90-92 | for the sizes whose pages are all allocated, allocating and mapping is a run of the copy-on-write machine from every state |
| UserMap.RegionIsWalk | sys/virtualmem.c:262-265 | the pages of a region are what a walk from the root finds |
| FrameAllocator.Allocator.InitBump | sys/allocator.c:16-47 | the list is terminated exactly when the bounds are whole pages apart; then the queue is every page behind the descriptors, in order, and no page overlaps a descriptor |
| FrameAllocator.Allocator.InitAfterPaging | sys/allocator.c:49-58 | the cursors are placed and the queue is kept |
| FrameAllocator.Allocator.Bump | sys/allocator.c:60-89 | it succeeds exactly when enough pages are free, removes ceil(size/4096) pages from the front of the queue and returns the first; no descriptor is lost |
| FrameAllocator.Allocator.Kfree | sys/allocator.c:179-198 | it works exactly when some page is free and some is handed out, and then appends the page to the queue |
| AllocatorRuns.KfreeRecoversThePage | sys/allocator.c:186-193 | for p below 2^31 kfree recovers p from the user form and from p itself, and it recovers p from the kernel form exactly for such p |
| AllocatorRuns.QueueIsRestPlusReturned | sys/allocator.c:60-198 | over every run the queue is the initial pages followed by the returned ones, in order, without as many pages at the front as were handed out |
| AllocatorRuns.AllocationIsContiguous | sys/allocator.c:60-89 | while the pages requested so far do not exceed the initial count, every allocation is a run of consecutive pages |
| AllocatorRuns.AllocationsAreDisjoint | sys/allocator.c:60-89 | two such allocations of one run share no page, whatever is freed between them |
| AllocatorRuns.PagesArePartitioned | sys/allocator.c:60-198 | free and handed-out pages together are always the initial pages, each once, as long as only held pages are returned and only while some page is free |
| AllocatorRuns.ReplayRun | sys/allocator.c:60-198 | on the linked list such a run follows no NULL pointer, and leaves exactly that queue |
| AllocatorRuns.FreeAfterLastPage | sys/allocator.c:179-198 | on the linked list, once every page has been handed out, `kfree` of a page dereferences NULL |
| AllocatorRuns.LastPageCannotReturn | sys/allocator.c:179-198 | the run that takes every page and returns one that it holds is not one of those runs |
| AllocatorRuns.LegalFreesAreDistinct | sys/allocator.c:179-198 | a series of frees gives back only handed-out pages exactly when they are handed out and all different |
| AllocatorRuns.ClearVmasFreesTwice | sys/process.c:269-290 | the frees of exec are never such a series, and with any memory area a page enters the queue twice |
| AllocatorRuns.ClearVmas | sys/process.c:269-290 | the loop over the linked areas passes exactly these pages to `kfree`, in this order |
| AllocatorRuns.FreedPages | sys/process.c:269-290 | they are every descriptor, the file of every area of type OTHER, the first descriptor once more, and the `mm_struct` |
| UserHeap.Heap.CreateHeap | sys/process.c:172-176 | a fresh page is one free block of 255 units |
| UserHeap.Heap.DoMalloc | sys/process.c:192-221 | it takes the tail of the first fit, and the reachable list afterwards is the described one |
| UserHeap.Heap.DoFree | sys/process.c:223-267 | the reachable list afterwards, and it is sorted and coalesced exactly when the block does not touch a free block on both sides |
| HeapSafety.MallocIsSafe | sys/process.c:201-213 | free and live blocks stay in bounds, sorted and apart exactly when the first fit is not an exact fit at the head |
| HeapSafety.PayloadIsLargeEnough | sys/process.c:195 | the payload holds the bytes asked for exactly when the rounding does not wrap, and is less than 16 bytes larger |
| HeapSafety.FreeIsSafe | sys/process.c:233-262 | freeing a live block keeps all of that exactly when it does not touch free blocks on both sides |
| HeapSafety.FreeAddsUnits | sys/process.c:233-262 | the free total grows by exactly the block exactly when it lies above the head and does not merge on both sides |
| HeapSafety.MallocTakesUnits | sys/process.c:201-213 | the reachable total loses exactly the units handed out and the blocks in front of the new head |
| HeapSafety.FreshHeapIsSafe | sys/process.c:172-176 | a new heap is safe |
| HeapSafety.HeapStaysSafe | sys/process.c:192-267 | over every run of guarded mallocs and frees the heap stays safe |
| HeapSafety.GuardsAreNeeded | sys/process.c:192-267 | inputs that break the heap without the guards |
| HeapRuns.ReplayRun | sys/process.c:192-267 | on the linked headers every guarded run leaves exactly the list and the live blocks of the run, and every live block keeps its header |
| HeapRuns.RunFreshHeap | sys/process.c:172-176 | so it does from a new heap on |
| HeapRuns.LosingTheHeap | sys/process.c:192-267 | a guarded run of eight calls on a new heap after which 238 of its 255 units are neither free nor in use |
| ProcessRuns.ScheduleKeepsInv | sys/contextswitch.c:180-238 | from every state in which it is called, both lists stay, the invariant is restored, and exactly the current process is running |
| CallEffects.DispatchesTheFirst | sys/contextswitch.c:192-236 | the next thread is the first ready one behind the caller in cyclic order, or from the head if the caller has blocked, and the idle thread if none is ready |
| CallEffects.ScheduleEffect | sys/contextswitch.c:226-236 | the two states that change: the process that is left becomes ready unless it is dead or the idle thread |
| ProcessRuns.CreateKeepsInv | sys/contextswitch.c:150-169 | a new thread keeps the invariant exactly when the ids and the wait flag in its recycled PCB page collide with nobody's, as those of a zeroed page do |
| CallEffects.CreateEffect | sys/contextswitch.c:150-169 | the new thread is the last one, ready, with slice 1 and the ids that its page held |
| ProcessRuns.BootInv | sys/main.c:56-62 | the state at boot meets the invariant |
| ProcessRuns.StartKeepsInv | sys/process.c:36-63 | so does the first user process |
| CallEffects.StartEffect | sys/process.c:36-63 | it gets id 1, no parent and a slice of 8 |
| ProcessRuns.ForkKeepsInv | sys/syscall.c:205-261 | fork keeps it exactly when the recycled PCB page does not carry a wait flag |
| CallEffects.ForkEffect | sys/syscall.c:205-261 | the child comes right behind its parent, ready, with a new id and half of the slice, which the parent keeps as well; nobody else changes |
| ProcessRuns.WaitKeepsInv | sys/syscall.c:164-203 | wait keeps it and loses no process |
| CallEffects.WaitForChild | sys/syscall.c:164-203 | waiting for a child moves the caller from its place to the head of the blocked list and marks exactly the children of that id |
| CallEffects.WaitForNobody | sys/syscall.c:164-203 | waiting for an id that is no child on the thread list keeps both lists, marks nobody, and leaves the caller ready or running |
| ProcessRuns.KillKeepsInv | sys/syscall.c:318-362 | kill keeps it, and only processes of that id leave the lists |
| CallEffects.KillThreadEffect | sys/syscall.c:318-341 | the first thread of that id leaves its place, unless it heads the list |
| CallEffects.KillBlockedEffect | sys/syscall.c:341-362 | without such a thread, the first blocked process of that id does |
| ProcessRuns.ExitKeepsInv | sys/contextswitch.c:70-144 | exit keeps it |
| ProcessRuns.NoLostWakeUp | sys/contextswitch.c:104-144 | the exit of an awaited process always makes its blocked parent a ready thread, with or without a live sibling; nobody else is lost exactly when the parent heads the blocked list |
| CallEffects.ExitBehindSibling | sys/contextswitch.c:104-144 | the woken parent comes right behind the first live sibling on the thread list, and the blocked list keeps what was behind the parent |
| CallEffects.ExitBehindCaller | sys/contextswitch.c:104-125 | without a live sibling it comes right behind the dead process |
| CallEffects.ExitEffect | sys/contextswitch.c:70-102 | of the PCBs an exit changes the state of the caller, which is dead, and slices |
| ProcessRuns.StepKeepsInv | sys/syscall.c:164-362 | every call keeps the invariant |
| ProcessRuns.StepLosesNobody | sys/syscall.c:164-362 | all processes that are not killed stay on the lists exactly when the call is no exit that wakes a parent behind the head of the blocked list |
| ProcessRuns.EveryRunKeepsInv | sys/contextswitch.c:70-238 | in every state reached by allowed calls (a new PCB page is unused, and zeroed for a kernel thread) both lists are acyclic and disjoint and only the current process may be running |
| ProcessRuns.GuardedRunLosesNobody | sys/contextswitch.c:104-144 | over every run in which no exit wakes a parent behind the head, a process that no call kills is still listed |
| ProcessRuns.ScheduleComesCloser | sys/contextswitch.c:192-236 | a dispatch picks the ready thread or strictly lowers its cyclic distance |
| ProcessRuns.DispatchedWithin | sys/contextswitch.c:192-236 | a ready thread at cyclic distance d is dispatched within d calls |
| TimeSlices.ExitPassesSliceOn | sys/contextswitch.c:85-102 | an exiting user process gives its slice to its parent, on whichever list, and to nobody else |
| TimeSlices.StepSpendsNoMore | sys/process.c:72-73 | no call raises the sum of slices of live user processes, except that the first user process brings MAXSLICE |
| TimeSlices.BudgetIsKept | sys/process.c:59 | over every run the sum never exceeds MAXSLICE |
| TimeSlices.BootedRun | sys/main.c:56-62 | both invariants hold in every state reached from boot |
| Waiting.StepLeavesStranded | sys/syscall.c:164-362 | no call makes a process ready again that is on no list, or blocked without an awaited live child, unless it makes a new process of its PCB page |
| Waiting.StrandedForGood | sys/syscall.c:164-362 | over every run that does not reuse the page, such a process is never on the thread list again |
| Waiting.WaitForZombieStrands | sys/syscall.c:169-200 | waiting for a child strands the caller exactly when the child was already dead |
| Waiting.WaitCanEnd | sys/syscall.c:169-200 | after waiting for a child, some run makes the caller ready again exactly when the child was alive |
| Waiting.KillStrands | sys/syscall.c:318-362 | a kill strands a blocked parent exactly when the victim was the only process that would wake it |
| LostProcesses.LosingAProcess | sys/contextswitch.c:104-144 | a run from boot to a state in which an exit takes a process, that nobody killed, off both lists |
| LostProcesses.WaitingForTheDead | sys/syscall.c:169-200 | a run from boot to a state in which a wait for a dead child blocks the caller for good |
| LostProcesses.KillingTheAwaited | sys/syscall.c:318-362 | a run from boot to a state in which a kill blocks the waiting parent for good |
| Scheduler.Scheduler.Reschedule | sys/contextswitch.c:180-238 | the search loops and state changes are those of the model |
| Scheduler.Scheduler.CreateThread | sys/contextswitch.c:150-169 | walking to the tail and linking appends the thread |
| Scheduler.Scheduler.Fork | sys/syscall.c:246-248 | the pointer code inserts the child behind its parent and splits the slice |
| Scheduler.Scheduler.WaitPid | sys/syscall.c:164-203 | marking, unlinking by process id and pushing on the blocked list are those of the model, and both chains stay whole |
| Scheduler.Scheduler.ThreadOnCompletion | sys/contextswitch.c:70-144 | the three search loops, the inheritance loops and both relinking branches are those of the model, and both chains stay whole |
| Scheduler.Scheduler.Kill | sys/syscall.c:318-362 | the unlinking is that of the model: the head of the thread list stays |
| Scheduler.CallerIsFound | sys/syscall.c:178-191 | the first thread with the caller's process id is the caller, and it is never the head |
| CStrings.Compare | sys/klibc.c:32-40 | it returns 0 exactly for equal strings |
| CStrings.ReadsString | sys/klibc.c:95-102 | a string written with its NUL is read back whole |
| ExecStack.UserStack.PushStrings | sys/process.c:351-362 | the strings lie one after the other below the old top, and nothing else has changed |
| ExecStack.UserStack.PushPointers | sys/process.c:367-381 | the second pass recomputes exactly the addresses of the first |
| ExecStack.UserStack.DoExecvpe | sys/process.c:349-385 | the stack ends in a gapless frame of argc, argv, envp, both pointer arrays and both groups of strings, and nothing outside it has changed |
| ExecStack.ReadsStrings | crt/crt1.c:3-12 | a NULL-terminated pointer array over such strings is read back as exactly the list |
| ExecStack.ExecRoundTrip | crt/crt1.c:3-12 | from the frame a started program reads exactly the argument and environment lists, for all lists that fit |
| ExecStack.FrameIsGapless | sys/process.c:349-385 | argv, envp, the argument strings and the environment strings follow each other without a gap up to the old top |
| Archive.ComputeSize | sys/tarfs.c:14-24 | the loop, with 32-bit weights and products, against its sum |
| Archive.GetSizeIsExact | sys/tarfs.c:14-24 | the size is right exactly for octal values below 2^32, that is for a first digit below 4 |
| Archive.GetSizeIsPlaceSum | sys/tarfs.c:14-24 | on any 12 bytes, octal digits or not, the size is the sum over the places, each product of the signed character with its weight cut to 32 bits |
| Archive.FindFile | sys/tarfs.c:26-44 | the scan returns the first header of that name, or 0 |
| Archive.ScanVisitsTheHeaders | sys/tarfs.c:32-42 | on every well-formed archive the scan visits exactly the headers and reads every name, size and content |
| Paths.SplitName | sys/fs.c:397-408 | the character loop cuts a name into components that keep their slash |
| Paths.SplitIsInjective | sys/fs.c:397-408 | different names have different components |
| Paths.SplitShape | sys/fs.c:397-408 | every component but the last ends in its only slash; the last has none, and is empty exactly after a final slash |
| Paths.BelowIsPrefix | sys/fs.c:397-408 | the folders of a name lie in or below a folder exactly when the name begins with the path of the folder |
| Paths.SplitPath | sys/fs.c:49-71 | the variant of the lookup, which opens no component behind a final slash |
| FileTree.FindsFirstMatch | sys/fs.c:11-47 | below any folder of the tree, the recursive lookup finds the node of the first entry of that name, and nothing if there is none |
| FileTree.FindsFolderPath | sys/fs.c:11-47 | and a path of folders leads to the last of them, or to nothing if there is none |
| FileTree.AddFolder | sys/fs.c:415-431 | a new folder keeps the tree in step with the entries loaded so far |
| FileTree.AddFile | sys/fs.c:432-449 | so does a new file |
| FileTree.FileSystem.LoadEntry | sys/fs.c:409-454 | the component loop adds exactly this entry, and exactly the folders on its way that were missing, with its size |
| FileTree.FileSystem.LoadTarfs | sys/fs.c:387-467 | the tree stands for exactly the headers of the archive, in order, and has a folder exactly for every entry in or below it |
| FileTree.FileSystem.FindFileFromRoot | sys/fs.c:11-47 | the recursion with its two loops computes the lookup function |
| FileTree.FileSystem.FindFile | sys/fs.c:49-72 | cutting and lookup of a path |
| FileLookup.TreeAgreesWithScan | sys/fs.c:11-47 | for every file name and loaded tree, looking up the components of "/rootfs/" + name succeeds exactly when the scan finds the name, with start = header + 512 and the same size |
| FileLookup.PathFits | sys/fs.c:49-71 | such a path fits the buffers of `find_file` exactly when the name has at most four components that fit; names of five and six are stored but not found |
| FileLookup.OpenMounted | sys/fs.c:49-72 | for paths that fit, the code finds the first entry of that name and its content, or nothing, in agreement with the scan |
| FileLookup.FindsFolderOfTree | sys/fs.c:11-72 | the path of a folder leads to the node of that folder, or to nothing if there is none |
| FileLookup.TreeServesFolders | sys/fs.c:387-467 | for every well-formed archive that was loaded, a folder path is found exactly when the name of some entry begins with it; the node is a directory with the size of the first such entry |
| FileLookup.OpenFolder | sys/fs.c:49-72 | for paths that fit, the code finds it, as `sys_chdir` and `do_dopen` need it |
| FileLookup.TreeServesFirstEntry | sys/fs.c:387-467 | for every well-formed archive that was loaded, the lookup yields the content of the first entry of that name, and nothing without one |

## Left out

- Inline assembly, register save and restore, the TSS, GDT, IDT and PIC set-up, and TLB flushes; a context switch is the assignment to the current thread.
- Disk, PCI, screen, keyboard and libc, and the programs under bin.
- `map_address` on recycled pages, `map_pagetables` and `unmap_page` inside `kfree`: direct access to every frame through KERNBASE is assumed after boot.
- The demand paging in `interrupt4` that derives a frame from the virtual address, and the lists of memory areas.
- `read_vfs`, the file descriptors, and the proc directory entries that fork and kill write.
- `bump` returning NULL is not checked by the paging code; its callers here are given enough free frames.
- Data pages are 512 words and are copied word by word, where the code copies 4096 bytes.
- ForkMeaning.ForkKeepsWf: a process is named by the frame of its PML4, and its frames are tables or data; the kernel half is not walked beyond its slots.
- VirtualMemory.Mmu.CopyPage: states its result for present upper levels only, the exact condition being that of `CowFault.CopyPageStaysInTree`; it needs a third free frame because the freed copy must find a free page left.
- FrameAllocator.Allocator.InitAfterPaging: addresses are physical throughout, so the relocation of the links to KERNBASE is not modelled.
- BootMap.BootMapper.MapAddressInitial: starts from an empty PML4, as the boot code does.
- BootMap.StartPaging: takes the bounds of memory to be whole pages, with room for the tables and two pages more.
- UserMap.UserMapper.MapUserAddress: stays within the 1 GB of its first page, beyond which the code writes behind the end of a page directory; flags are 7, as in every call.
- CowRefinement.RunRefinesEager: has no step for the frees of exec, which break the invariant, nor for a mapping to a frame that somebody uses, such as the page too many of `loadelf`; the exact conditions are those of `KernelSteps.FreesKeepWf` and `MapCallers.AllocateAndMapKeepsWf`.
- UserHeap.Heap.DoMalloc: without a fitting block the code dereferences NULL; the model returns that outcome instead.
- ProcessRuns.EveryRunKeepsInv: in runs a kernel thread's PCB page is taken to be zeroed, since `create_thread` sets no process id; `ProcessRuns.CreateKeepsInv` has the exact condition.
- ProcessRuns.KillKeepsInv: covers the kill of another process with signal 9; killing oneself is exit, and the question asked before killing process 2 is left out. Process ids do not wrap.
- ExecStack.UserStack.DoExecvpe: the kernel-side copies `args[5][40]` and `envs[5][40]` are not modelled, so their limits do not appear.
- FileTree.FileSystem.FindFile: requires components that fit `sub_name[6][10]`, so names of five and six components below "/rootfs/", which `load_tarfs` stores, are outside it: the code writes behind the buffer.
- FileTree.FileSystem.LoadTarfs: requires names that fit the buffers `sub_name[6][10]`; a name without a slash would be cut with a character that was never written. A directory's child arrays are unbounded here and one page in the code.
- FileTree.FileSystem.constructor: the devices under "/dev/" are left out.
