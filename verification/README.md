# A verified model of a small x86-64 kernel

A Dafny model of the parts of a teaching kernel that have invariants worth proving, with proofs that they keep them.
`dafny verify dfyconfig.toml` checks everything.

**Memory** (`sys/paging.c`, `sys/main.c`). Physical memory is a map from frame and word index to 64-bit words, and the MMU is
a pure function of memory, root frame and address (Intel SDM Vol. 3A, section 4.5; U/S bits as in section 4.6).
`Words` and `Window` show that the mask-and-shift addresses of `page_walk` reach the entries of the walk through the
self-reference in slot 510. `PageTree` states that the tables of all address spaces form a forest, up to that
self-reference and the subtree in slot 511 that all share. `AddressSpace` adds the free list, which is stored in the memory it
describes, and the mapping at KERNBASE through which it is read. `Mapping` defines the walk by index and what it does to every
translation; `Paging` is the kernel as a class, whose `page_walk` loads and stores through the MMU on the memory it is changing.
`Entries` says which entries it stores, flags included.
`Ranges`, `Spaces` and `Heap` cover the kmalloc family and new address spaces, `Runs` any sequence of operations; `Accounts`
says what becomes of every frame handed out, `HeapBlocks` what holds of the heap, `Protection` what user code can reach.
`FreeList`, `Prefixes`, `Boot` and `Start` are the boot order that establishes the invariant.

**Scheduling** (`sys/isr.c`, `sys/schedule.c`, `sys/isr.s`). `Scheduler` is the policy on values: conservation, the closed form of
who runs, fairness, and the waiting bound. `Context` models kernel stacks word by word and shows that one processor which saves and
restores behaves like one processor per process. `Timer` has the linked queue, `generate_timer` and `irq0` on memory, each equal to
its counterpart in these two.

**Files and processes** (`sys/tarfs.c`, `sys/string.c`, `sys/math.c`, `sys/elf64.c`, `sys/task.c`). `CString` has the string functions on
buffers, `Archive` the ustar format (IEEE Std 1003.1, pax utility) and the walk over it, `Tarfs` the table of entries and its tree of
paths. `Elf` makes the list of memory areas, and `Process` builds and fills the address space of a new process, byte by byte.
`Creation` says when that can be done, and `FirstProcess` follows the kernel from the memory map to its first process.

Where the code departs from what it seems meant to do, the code is modelled, and the condition under which it is right is
proved or is a precondition:

- `sys/paging.c:55` clears 512 bytes of a page, not 4096: `FreeList.HeadClearsFrame` says when that is enough, and `Start.CanStart`
  asks for listed pages that read as zero in the other seven eighths.
- `sys/paging.c:76` appends the page at a region's end: `FreeList.AddApart` and `FreeList.AscendingApart` are the exact conditions
  for different pages, `Start.TouchingRegionsShareAPage` a memory map that violates them; `Start.ListedOutside` is the condition for
  pages of usable memory, `Start.PageBehindMemory` a map that violates it. `FreeList.RegionFits` is the precondition of `Start.Start`.
- `sys/paging.c:831` stores slot 510 of a user PML4 with the U/S bit, so user code can change its own tables and, through slot 511,
  those of the kernel: `Protection.WindowAccess` is the exact condition, `Protection.NewWindowAccess` says who meets it. The results
  about runs hold for stores of user code outside slot 510, which `Protection.UserReach` shows to be stores to data frames.
- `sys/paging.c:287` adds KERNBASE to a NULL link (`Paging.ExhaustionUnseen`), and `page_walk` does not test what it gets. Enough frames
  on the list is therefore a precondition of every mapping (`CanMap`, `RunFits`), exact to the frame.
- `sys/main.c:237` takes physfree to be page-aligned: a precondition of `Start.Start`.
- `sys/isr.c:384-417` queues the idle process while it runs, exactly if the queue is empty then (`Scheduler.TickConserves`);
  `Scheduler.RunConserves` shows that this does not happen once a process is ready at the first scheduling tick, and `Timer.ListLasts`
  that the queue then stays a list.
- `sys/schedule.c:87` makes the idle process return to the call in `irq0` instead of behind it: its first dispatch calls
  `generate_timer` once more (`Context.FirstResume`).
- `sys/isr.c:268-295` puts the running process on the queue without looking whether it is there: `Timer.WouldRepeat` is the exact
  condition, `Timer.TickOrder` says when it comes to be violated, `Timer.IdleTurnsBehind` is a run that violates it.
- `sys/task.c:251` counts `vm_offset` in 64-bit words: `Process.SegmentIsRightFor` and `Process.RightForAllFiles` are the exact
  conditions for the right bytes in the new process, `Process.SegmentGoesWrong` gives the files for which it has a wrong one.
  `Creation.RightForAllImages` has both for every system with room, and `FirstProcess.SomeFirstProcessGoesWrong` a whole machine.
- `sys/tarfs.c:23-31` cuts two slashes from every directory name: `Tarfs.ParentNameIsParent` is the exact condition for the parent.
- `sys/tarfs.c:88-89` records header plus size as the place of a file's contents, which is where they are exactly if there are 512
  bytes of them: `Tarfs.ContentsFound`, which also says how the offset leads there.
- `sys/tarfs.c:119` skips a block for a NUL typeflag, with which the format marks regular files too:
  `Archive.WalkMissesAfterNul` is the exact condition for a complete walk, `Archive.WalkIsExact` for one that visits nothing else.
- `sys/tarfs.c:169` looks for the children of an absent directory under the index -1, which is the root's parent: `Tarfs.LsCounts`.

## Model

| member | source | states |
|---|---|---|
| `Words.AndField` | include/sys/paging.h:41-44 | Masking with j ones above k zeroes selects exactly the address bits k .. k+j-1, in place |
| `Words.OrDisjoint` | sys/paging.c:589-592 | Joining a value below 2^k to a multiple of 2^k with the C operator is addition |
| `Words.ShrDivides` | sys/paging.c:348-351 | The digit-wise right shift divides by a power of two |
| `Window.FieldAddress` | sys/paging.c:584-592 | Mask, shift and join give the window base plus eight times the index field, for every address and every field |
| `Window.Assembled` | include/sys/paging.h:31-34 | An address put together from four indices is canonical and is walked through exactly these indices |
| `Window.PteRecPath` | sys/paging.c:587-592 | The page table entry address of v is walked as (510, I4, I3, I2) and points at word I1 |
| `Window.WindowResolves` | sys/paging.c:584-592 | Under the self-reference the MMU takes the four computed addresses to exactly the PML4, PDPT, PD and PT entries that the walk of v reads, and faults exactly where a table on the path is missing |
| `Mmu.PageIdentifies` | sys/paging.c:348-351 | Two canonical addresses have the same four indices exactly if they lie in the same page |
| `PageTree.FollowArrives` | sys/paging.c:606-616 | In a well-formed forest every path of at most three steps stays within the tables, at the level and with the owner that its indices say |
| `PageTree.PathsMeet` | sys/paging.c:583-677 | Two direct paths that reach the same table are equal, and start at the same PML4 or run through the shared half: tables have one parent |
| `PageTree.SharedHalf` | sys/paging.c:828-831 | All PML4s that hold the same slot 511 translate the whole shared half alike |
| `PageTree.WriteKeepsTree` | sys/paging.c:633-637 | Linking a zeroed frame that is no table at an empty entry, or setting a page table entry, keeps the forest well formed |
| `PageTree.WriteAt` | sys/paging.c:633-671 | What one entry write changes in every path of every address space: the path written, for those who see it, and nothing else |
| `PageTree.NewSpace` | sys/paging.c:815-835 | A PML4 with slots 510 and 511 filled maps the shared half as the kernel does and nothing else |
| `PageTree.MappedIsUser` | sys/paging.c:681-790 | In a user address space whatever is mapped outside slots 510 and 511 has the U/S bit at all four levels |
| `PageTree.SharedHalfGuarded` | sys/main.c:187-190 | While the shared entry lacks the U/S bit, user code reaches no page of the shared half |
| `AddressSpace.WindowTranslates` | sys/paging.c:279-290 | A physical address in the boot mapping is mapped at KERNBASE plus itself in every address space |
| `AddressSpace.PopKeeps` | sys/paging.c:285-287 | Taking the head of the list keeps the whole invariant: forest, stored list, free frames, window |
| `AddressSpace.SetKeepsBoot` | sys/paging.c:633-671 | Setting an entry the kernel may set keeps forest, list and free frames |
| `AddressSpace.SetChanges` | sys/paging.c:633-671 | The same write seen from every root and path |
| `Mapping.LinkKeeps` | sys/paging.c:633-635 | Linking a fresh frame as a table keeps the invariant, moves no page of any address space, and continues the path with an empty table |
| `Mapping.LeafKeeps` | sys/paging.c:625-626 | Setting the page table entry maps that page for those who see it and moves no other |
| `Mapping.MapDirectOutcome` | sys/paging.c:338-415 | The walk by index keeps the invariant, maps v to p, leaves every other page of every address space alone, keeps user access, and takes one frame per missing table |
| `Mapping.MappedTranslations` | sys/paging.c:583-677 | The same for addresses: every address outside slot 510 translates as before in every address space, but for the page mapped |
| `Entries.MapDirectMade` | sys/paging.c:622-790 | In all four branches and both halves the walk stores p_addr plus its flags in the page table entry of v, links new tables with the same flags, and changes no entry in use |
| `Paging.ValidIsPresent` | sys/paging.c:980-990 | On the entries that the kernel makes, is_valid_page is the present bit |
| `Paging.FlagsJoined` | sys/paging.c:625-637 | The C expression p_addr or flags is the entry for that frame |
| `Paging.ExhaustionUnseen` | sys/paging.c:279-290 | The head is never NULL after the hand-over; it is KERNBASE when the list is used up, so the test in line 282 cannot see that |
| `Paging.NodeInWindow` | sys/paging.c:279-290 | The three words of a list node are mapped at KERNBASE plus their physical address in every address space |
| `Paging.Kernel.GetNextFreePageKmalloc` | sys/paging.c:279-290 | Returns the frame at the head of the list, read through the MMU, marks its node and moves the head on; the invariant stays |
| `Paging.Kernel.LinkTable` | sys/paging.c:633-635 | A window store of a fresh frame is the index-walk step of linking a table |
| `Paging.Kernel.FillPt` | sys/paging.c:622-628 | The branch with all tables present, run through the window, equals the step by index |
| `Paging.Kernel.FillPd` | sys/paging.c:630-641 | The branch with the page table missing equals its walk by index |
| `Paging.Kernel.FillPdpt` | sys/paging.c:643-654 | The branch with the page directory missing equals its walk by index |
| `Paging.Kernel.FillPml4` | sys/paging.c:656-675 | The branch with all three tables missing equals its walk by index |
| `Paging.Kernel.WalkAndMap` | sys/paging.c:583-790 | page_walk and page_walk_user, run through the MMU on the memory they change: 0 and nothing changed exactly if v was mapped; else 1, the state of the walk by index, its outcome for all translations, the page table entry p_addr plus the flags, the same flags in every table entry made, and no entry in use changed |
| `Ranges.PlacedAt` | sys/paging.c:436-456 | The pages of a run have different paths, so page i of it holds the i-th frame |
| `Ranges.RoundOutcome` | sys/paging.c:438-453 | One round of the allocation loop takes 1 plus the missing tables' frames and maps one page |
| `Ranges.RunOutcome` | sys/paging.c:436-456 | A run over free pages maps each of them to its frame, moves nothing else in any address space, keeps the invariant |
| `Ranges.RunKeepsUser` | sys/paging.c:554-573 | Runs keep the rule that private user tables grant user access at every level |
| `Ranges.RunFramesDiffer` | sys/paging.c:436-456 | No frame is mapped twice by one run |
| `Entries.RunMade` | sys/paging.c:436-456 | The page table entries of a run hold its frames with the flags of the walk, and all that it makes carries these flags |
| `Spaces.DataWrite` | sys/task.c:261 | Writing to a data frame keeps the invariant and all tables |
| `Spaces.AddSpaceOutcome` | sys/paging.c:815-835 | Making a zeroed frame a PML4 keeps the invariant and every translation; the new space sees the shared half and nothing else |
| `Spaces.HeapPagesFree` | sys/paging.c:432-433 | Pages from the heap top on are mapped in no address space |
| `Spaces.HeapGrows` | sys/paging.c:454-455 | After a block at the heap top nothing is mapped above it |
| `Heap.AllocatedOutcome` | sys/paging.c:436-458 | Whatever pages the loop finds mapped, it keeps the invariant, maps exactly the free pages before the first of them, and moves no other page of any address space |
| `Heap.AllocatePages` | sys/paging.c:436-458 | The loop of the kmalloc family stops at the first mapped page, after having taken one frame more, and else maps all pages; 0 or the start |
| `Heap.BlockOutcome` | sys/paging.c:424-459 | At the heap top the already-mapped branch is never taken |
| `Heap.Kmalloc` | sys/paging.c:424-459 | kmalloc returns the old top; the block's pages are mapped to frames off the list, nothing else moves, the heap goes on behind it; no page table entry of the block has the U/S bit, and all new entries have flags 3 |
| `Heap.KmallocUser` | sys/paging.c:462-499 | The same for one page more than asked for; every page table entry of the block has the U/S bit, and all new entries have flags 7 |
| `Heap.KmallocTopVirtualAddressUser` | sys/paging.c:541-579 | Maps pages from an address of the caller's choice and leaves the heap top alone; 0 if a page was mapped already |
| `Heap.CreationSteps` | sys/paging.c:820-831 | The new PML4's last two words can be written through the mapping just made, also after the first write |
| `Heap.CreateNewPml4` | sys/paging.c:793-835 | create_new_kernel_pml4 and create_new_user_pml4: 0 if the heap top was mapped; else the frame is mapped there and is a PML4 with the shared entry and the self-reference |
| `Heap.HeapAfterCreation` | sys/paging.c:827-834 | The heap goes on one page above the new PML4 |
| `Runs.StepOutcome` | sys/paging.c:424-835 | Every operation (heap allocation, new space, user mapping of free or mapped pages, switch, data write) keeps the invariant and changes only the pages it maps |
| `Runs.RunKeeps` | sys/paging.c:424-835 | So does any sequence of operations; slot 511, the PML4s and the data frames stay |
| `Runs.KernelHalfAgreement` | sys/paging.c:793-835 | At the end of any run of these operations every PML4, old or new, holds the initial slot-511 entry, all translate that half alike, and no user code may access it; `Protection.UserReach` says which stores of user code are such operations |
| `Runs.MappingsStay` | sys/paging.c:616-620 | What any address space maps it maps to the same frame at the end of any run |
| `Runs.KernelMapsStay` | sys/paging.c:828-831 | An address below 2 GiB that the kernel maps at KERNBASE plus itself stays mapped there, in every address space of any later run |
| `Runs.UserHalfIsolation` | sys/paging.c:681-790 | Over any run in which q maps nothing itself, no translation of q outside slots 510 and 511 changes |
| `Runs.PagesAreUnique` | sys/paging.c:279-290 | No frame is taken for a data page twice in a run; each was on the list at the start and ends as no table |
| `Accounts.FramesAreUnique` | sys/paging.c:279-290 | Each frame handed out in a run has either become a table, PML4s included, or been taken for a data page, and not both; no data page has another's frame; every new table and data page is one of these frames |
| `Accounts.FramesSinceBoot` | sys/paging.c:202-290 | The same from booting on, over get_next_free_page and get_next_free_page_kmalloc together: all frames behind the stored list are different, and each handed out is exactly one table or one data page |
| `HeapBlocks.HeapBlocksHold` | sys/paging.c:424-835 | The blocks of kmalloc, kmalloc_user and create_new_*_pml4 of any run are page-aligned and disjoint, no frame is behind two of their pages, and each page is still mapped, in every address space, to the frame it was given |
| `Protection.WindowAccess` | sys/paging.c:831 | The MMU lets user code access the words of its own PML4, slot 511 included, exactly if slot 510 has the U/S bit |
| `Protection.NewWindowAccess` | sys/paging.c:815-835 | A new address space has its window, and shows its PML4 there to user code exactly if create_new_user_pml4 made it |
| `Protection.UserReach` | sys/paging.c:681-835 | At the end of any run user code of any address space reaches data frames only, outside slot 510, and reaches slot 510 only if its entry has the U/S bit |
| `FreeList.ClearHead` | sys/mm.c:4-10 | memset(p, 0, 4096 / 8) zeroes the first 64 words of the page and no other word |
| `FreeList.HeadClearsFrame` | sys/paging.c:55-56 | That leaves a zero page exactly if its other seven eighths were zero |
| `FreeList.BuildFirst` | sys/paging.c:50-67 | The region of physfree becomes the finished list of its pages, stored in them; the first 512 bytes of each page outside the storage become zero, and nothing else changes |
| `FreeList.LastNode` | sys/paging.c:71-75 | Following the links ends at the last node |
| `FreeList.AppendPage` | sys/paging.c:77-83 | One round links one node more, zeroes the first 512 bytes of its page and stores it |
| `FreeList.BuildMore` | sys/paging.c:69-88 | A later region's pages, the one at its end included, are appended to the finished list and their first 512 bytes zeroed |
| `FreeList.AddKeeps` | sys/paging.c:43-90 | With regions that ascend without touching the frames on the list ascend, those of the first region are consecutive, and the list fits into that region |
| `FreeList.AddApart` | sys/paging.c:69-88 | A later region leaves the frames on the list different exactly if none of them lies from its first page through the page at its end |
| `FreeList.AscendingApart` | sys/paging.c:76 | When regions ascend, that is exactly if the region starts above the last page on the list |
| `FreeList.AppendFreeList` | sys/paging.c:43-90 | append_free_list turns the list of some frames into the finished list of these and the region's, whether or not regions touch, as long as the list ends below the pages it clears; outside the list's storage the first 512 bytes of each added page are zero, and nothing else has changed |
| `FreeList.SetFreeListHead` | sys/paging.c:92-115 | The head is the node behind the frames that hold the list, and the page count drops by as many |
| `FreeList.ListKeepsClear` | sys/paging.c:92-110 | The list does not eat itself: no frame left behind the head holds a node |
| `Prefixes.MapDirectDirs` | sys/paging.c:338-415 | Mapping v brings exactly the three tables on its path into being and moves none |
| `Prefixes.MissingIsAbsent` | sys/paging.c:370-411 | The frames taken for v are as many as the table prefixes of v that were absent |
| `Prefixes.AbsentShrinks` | sys/paging.c:338-415 | From any collection of prefixes, mapping v removes those of v that were absent and no other |
| `Boot.GetNextFreePage` | sys/paging.c:202-213 | While booting: the head's frame, its node marked; all ones when the list is empty |
| `Boot.Offsets` | sys/paging.c:348-351 | The shifted and masked offsets are the four indices of the MMU |
| `Boot.BuildPd` | sys/paging.c:376-384 | The branch with the page table missing equals the walk by index |
| `Boot.BuildPdpt` | sys/paging.c:385-399 | The branch with the page directory missing equals the walk by index |
| `Boot.BuildPml4` | sys/paging.c:400-413 | The branch with all tables missing equals the walk by index |
| `Boot.MapOne` | sys/paging.c:346-414 | One round of map_all_kernel_pages equals the walk by index and keeps what holds while booting |
| `Boot.BootRunOutcome` | sys/paging.c:338-415 | After n rounds the pages so far are mapped to consecutive frames, nothing else has moved, and absent prefixes and frames taken add up |
| `Boot.MapAllKernelPages` | sys/paging.c:338-415 | Maps every page from align(start) through end to align(p_start) plus its distance, and takes exactly one frame per distinct table prefix that was absent |
| `Boot.FirstRootIsBare` | sys/paging.c:313-331 | A zeroed frame with its own entry 510 is a well-formed PML4 that maps nothing |
| `Boot.CreateKernelPml4` | sys/paging.c:313-331 | create_kernel_pml4 takes a frame for it and establishes what holds while the kernel's tables are built |
| `Start.TouchingRegionsShareAPage` | sys/main.c:130-149 | A memory map of three usable regions, two of which touch, that `Start.ReadMemoryMap` takes puts the page between these on the list twice |
| `Start.ReadMemoryMap` | sys/main.c:130-149 | Reading the memory map builds the finished list of the pages of all its usable regions; outside the storage of the list their first 512 bytes are zero, and nothing else has changed |
| `Start.FoundInOk` | sys/main.c:130-149 | With regions that ascend without touching these pages are all different |
| `Start.ListedBy` | sys/main.c:130-149 | A frame is on the list exactly if some entry of the memory map puts it there |
| `Start.ListedOutside` | sys/paging.c:76 | Such a frame lies within the entry exactly if it is below the page with the region's end; it is in no usable region exactly if that fails for every entry that lists it and no other contains it |
| `Start.PageBehindMemory` | sys/paging.c:76 | Two regions that do not touch, with a page behind both of them on the list |
| `Start.ListIsReady` | sys/main.c:163 | Behind the head the list holds different zeroed frames, none of them its own storage, as long as the last seven eighths of each listed page were zero at boot |
| `Start.MapDirectGuards` | sys/paging.c:338-415 | Mapping a page for the kernel changes words only to a node's mark or to an entry with flags 3: none gets the U/S bit |
| `Start.RunPlaces` | sys/main.c:187-190 | After a call of map_all_kernel_pages each of its frames is mapped at KERNBASE plus its address, and no other such page has changed |
| `Start.BootedMaps` | sys/main.c:187-190 | When the kernel switches to its own tables, every address from 0xb8000 to 0xb9fff, and from the image through the list, is mapped at KERNBASE plus itself |
| `Start.WindowMade` | sys/main.c:187-220 | Boot hand-over: when the kernel switches to its own tables, its PML4 and every list node are mapped at KERNBASE plus their physical address |
| `Start.HeapStarts` | sys/main.c:187-237 | Nothing is mapped from the heap top on that start sets |
| `Start.SomeMachineStarts` | sys/main.c:130-237 | The preconditions of start are met by 128 MiB of memory that is zero behind an image of 1 MiB, but for the first 512 bytes of each page, with more than 30000 frames to spare |
| `Start.Start` | sys/main.c:130-237 | The boot order from the memory map to the heap top establishes the running kernel's invariant, with at most one frame per table prefix and one for the PML4 taken, each frame taken a table, nothing but data mapped below slot 510, memory below physfree unchanged, and the console at 0xb8000 and the image mapped at KERNBASE plus their addresses |
| `Scheduler.InterruptsAreTicks` | sys/isr.c:298-304 | n timer interrupts are n div 180 scheduling ticks |
| `Scheduler.TickConserves` | sys/isr.c:329-417 | A tick keeps every process exactly once exactly if somebody is ready; with an empty queue idle ends up both running and queued |
| `Scheduler.RunConserves` | sys/isr.c:256-417 | Over any interrupts and arrivals in which a process has arrived before the first interrupt that schedules, once idle has run, the running process and the queue hold idle and each process scheduled so far exactly once, and the queue is never empty |
| `Scheduler.SixTicks` | sys/isr.c:268-295 | With fresh quanta the two processes in front alternate for six ticks and then go to the end, fresh again |
| `Scheduler.ClosedForm` | sys/isr.c:256-417 | With n >= 2 processes P and full quanta, P[(2 (t div 6) + t mod 2) mod n] runs after t ticks |
| `Scheduler.TurnsClosed` | sys/isr.c:256-417 | How many of the first t states each process runs, in closed form |
| `Scheduler.DispatchesFair` | sys/isr.c:256-417 | At any time the dispatch counts of two processes differ by at most three |
| `Scheduler.BoundedWaiting` | sys/isr.c:268-366 | A process at place k of the queue is dispatched within 3 k + 1 ticks if k is even and 3 k + 3 if k is odd, whatever processes arrive |
| `Scheduler.WaitingIsTight` | sys/isr.c:268-366 | For every k, with full quanta the last of k + 1 waiting processes is dispatched by exactly that tick and not before |
| `Scheduler.LongQueues` | sys/schedule.c:20-40 | For every k there is such a queue |
| `Context.PushRegsKeeps` | sys/isr.s:296-339 | The fifteen pops mirror the fifteen pushes and touch no other word |
| `Context.EnteredRestores` | sys/isr.s:293-340 | What irq0 and the processor push is what irq0 and iretq give back, and only the 22 words below are written |
| `Context.QuietIrq` | sys/isr.c:298-302 | Between scheduling ticks an interrupt leaves the process as it was |
| `Context.SwitchSaves` | sys/isr.c:350-366 | At a scheduling tick the frame of the running process becomes its saved one and all others keep theirs |
| `Context.FirstResume` | sys/schedule.c:87-88 | The idle process's first dispatch calls generate_timer once more, which only counts, and then starts with its prepared context |
| `Context.ArriveRefines` | sys/schedule.c:143-155 | The prepared kernel stack is the saved frame of a process at its entry point |
| `Context.RunsRefine` | sys/isr.c:298-417 | Over any interleaving one processor that saves and restores behaves like one processor per process |
| `Context.RoundTrip` | sys/isr.s:293-340 | A preempted process, whatever runs meanwhile, is dispatched again with all fifteen registers, rip, cs, rflags, rsp and ss as they were |
| `Context.FirstDispatch` | sys/schedule.c:143-155 | Whatever has happened since, the first dispatch of a process starts it with rip = e_entry, rsp = pstack, cs 0x2b, ss 0x23, rflags 0x200202 and all fifteen registers zero |
| `Context.BeginRefines` | sys/schedule.c:79-100 | The machine with the idle process prepared starts out like its ideal |
| `Context.IdleDispatch` | sys/schedule.c:79-100 | Idle starts at function_pointer with rsp = &kstack[511], cs 8, ss 0x10, rflags 0x200202 and all registers zero |
| `Timer.Computer.GetNextReadyProcess` | sys/isr.c:256-265 | Pops the head of the linked queue, null when empty |
| `Timer.Computer.LinkLast` | sys/schedule.c:30-37 | Walking to the last process and linking behind it appends to the queue, which stays linked and ends |
| `Timer.Computer.ScheduleOldProcess` | sys/isr.c:268-295 | On the linked queue and the quantum fields it is the requeueing of the policy |
| `Timer.Computer.AddReadyProcess` | sys/schedule.c:20-40 | On the linked queue it is the arrival of the policy |
| `Timer.Computer.Schedule` | sys/isr.c:306-417 | The three branches of a scheduling tick are the policy's tick; rsp is saved and the next one loaded with cr3, the TSS and the data segments set for user processes |
| `Timer.Computer.GenerateTimer` | sys/isr.c:298-417 | generate_timer on memory equals one interrupt of the policy with the hand-over of stacks; cr3 and the data selectors change exactly at scheduling ticks, to those of the process that runs |
| `Timer.Computer.ScheduleUserProcess` | sys/schedule.c:143-179 | Writes the six stack words, given with their places and values, and appends: the arrival of the machine model |
| `Timer.Computer.ScheduleIdleProcess` | sys/schedule.c:79-100 | Makes the idle process, with its six stack words in numbers, and establishes the initial state of the machine model |
| `Timer.Computer.PushAll` | sys/isr.s:296-310 | Fifteen pushes in order |
| `Timer.Computer.PopAll` | sys/isr.s:324-338 | Fifteen pops in the opposite order |
| `Timer.Computer.Irq0` | sys/isr.s:293-340 | A whole interrupt on memory, from the interrupted code to the code that runs next, equals the machine model's interrupt, and the queue stays in order exactly if the running process does not turn behind others |
| `Timer.TickOrder` | sys/isr.c:256-295 | The running process gets behind the head of the queue exactly by being that head, using up its ticks, and turning behind others |
| `Timer.WouldRepeat` | sys/isr.c:268-295 | A tick leaves every process at most once on the queue exactly if the running one is not behind its head |
| `Timer.IdleTurnsBehind` | sys/isr.c:385-417 | That is not so once idle has been interrupted with nobody ready, another process arrives, and three ticks pass |
| `Timer.ListLasts` | sys/isr.c:256-417 | Over any run from a state in which somebody is ready and the running process is not on the queue, every tick finds the running process off the queue, so that no process is ever linked twice |
| `CString.StrLen` | sys/string.c:93-97 | The index of the first NUL |
| `CString.CompareIsEquality` | sys/string.c:16-38 | The order of strcmp gives 0 exactly for equal strings |
| `CString.StrCmp` | sys/string.c:16-38 | Length first, then the first difference, as signed characters; 0 exactly for equal strings |
| `CString.StrCpy` | sys/string.c:67-75 | The string and its end are copied, all other bytes of the buffer stay |
| `CString.StrSubCpy` | sys/string.c:77-83 | The given range is copied in place and nothing else |
| `CString.StrRevCat` | sys/string.c:100-106 | The second buffer's string becomes its old string followed by the first |
| `CString.Oct2Bin` | sys/math.c:5-15 | The value of the field, as long as no step leaves a C int |
| `CString.OctalRoundTrip` | sys/math.c:5-15 | Reading k octal digits gives back the number below 8^k that they were made from |
| `Archive.WalkVisitsHeaders` | sys/tarfs.c:73-124 | Without NUL typeflags the walk visits exactly the member headers, in order, and ends |
| `Archive.WalkMissesAfterNul` | sys/tarfs.c:119-122 | The walk visits every header exactly if no member but the last has a NUL typeflag |
| `Archive.WalkIsExact` | sys/tarfs.c:73-124 | The walk visits the headers and nothing else exactly if, besides, there is nothing one block behind an archive whose last member has a NUL typeflag |
| `Archive.EncodedIsLaid` | sys/tarfs.c:73-124 | Members written with padded data are laid out as the walk expects, followed by nothing or a zero block |
| `Tarfs.OffsetOf` | sys/tarfs.c:93-100 | Both branches advance the offset to the end of the last data block |
| `Tarfs.Vfs.CutAt` | sys/tarfs.c:20-31 | The backward loop ends at the slice_count-th slash from the end |
| `Tarfs.Vfs.GetParentIndex` | sys/tarfs.c:18-58 | The first entry with the cut name, -2 when there is none |
| `Tarfs.Vfs.RootedName` | sys/tarfs.c:74-84 | The three copies leave "/rootfs/" followed by the member's name |
| `Tarfs.Vfs.ReadMember` | sys/tarfs.c:68-124 | One round lists the member at the header and goes on behind its data |
| `Tarfs.Vfs.TarfsInit` | sys/tarfs.c:61-125 | vfs ends up as what the walk makes of the archive, header by header |
| `Tarfs.Vfs.TarGetIndex` | sys/tarfs.c:156-166 | The first entry with the name, -1 when there is none |
| `Tarfs.Vfs.TarLs` | sys/tarfs.c:168-188 | How many entries have the index found as parent |
| `Tarfs.ScanDecodes` | sys/tarfs.c:68-124 | At every header offset is 512 plus the position, and what is listed is what the members say |
| `Tarfs.DecodeInvertsEncode` | sys/tarfs.c:61-125 | An archive written from members is read back as these members: headers visited, "/rootfs/" and the names, sizes, types, order |
| `Tarfs.ContentsFound` | sys/tarfs.c:88-102 | The contents of every file of such an archive can be found again from its entry: as many blocks before its offset as it and its header take, and at its address exactly if there are 512 bytes of them |
| `Tarfs.ParentNameIsParent` | sys/tarfs.c:20-43 | The name looked for is the longest proper prefix that ends with a slash exactly if directory names end with a slash and file names do not |
| `Tarfs.AddToTree` | sys/tarfs.c:45-58 | An entry extends the tree exactly if its name has that shape and an earlier entry is its parent directory; without the latter its parent index is -2 |
| `Tarfs.ArchiveIsTree` | sys/tarfs.c:18-125 | The entries form the tree of paths exactly if directory names (type 5) end with a slash, file names (type 0) do not, and every member comes after the directory it is in |
| `Tarfs.WayUp` | sys/tarfs.c:18-58 | Every chain of parents descends in index through the parent directories and ends at the root |
| `Tarfs.LsCounts` | sys/tarfs.c:168-188 | tar_ls of a directory counts exactly the entries directly below it; of an absent name it counts one |
| `Elf.LoadElfVmas` | sys/elf64.c:65-145 | The linked list holds the areas of the loadable segments in order, then stack and heap, and each PT_LOAD header has one from p_vaddr to p_vaddr + p_memsz; the mm_struct has it with the entry point and the place of the executable |
| `Elf.AreaOfSegment` | sys/elf64.c:74-96 | Each loadable program header has an area in the list from p_vaddr to p_vaddr + p_memsz, with its p_offset |
| `Elf.CheckElfLoadable` | sys/elf64.c:35-49 | 1 exactly if there is a loadable segment, that is, if the list gets a file area |
| `Bytes.WriteByteAt` | sys/task.c:261 | A byte store changes that byte of memory and no other |
| `Process.FilledAt` | sys/task.c:260-264 | Bytes written to different frames are found where they were put |
| `Process.AreaMapped` | sys/task.c:239-243 | An area's pages get different frames, none of them in use before, and everything mapped or in use stays |
| `Process.CopyStep` | sys/task.c:260-264 | In every round of the copy loop source and target are mapped and the source byte is intact |
| `Process.CopyBytes` | sys/task.c:249-264 | The copy loop, byte by byte through the MMU, fills the area's frames with the source bytes |
| `Process.LoadOutcome` | sys/task.c:237-277 | Loading an area keeps all else, restores the PML4 in use, and makes every byte of its pages equal to the source byte |
| `Process.LoadFileArea` | sys/task.c:232-277 | The statements for a file area have that outcome and restore cr3 |
| `Process.LoadStackArea` | sys/task.c:278-291 | The statements for the stack map its page, restore cr3 and return the stack pointer |
| `Process.MakeSpace` | sys/task.c:214-220 | Control block and PML4 are made as heap block and new user address space |
| `Process.CreateProcess` | sys/task.c:211-302 | create_process walks the list, restores cr3, and leaves the system of all areas loaded in order; `Creation.CanCreate` says when it can |
| `Process.ProcessIsLoaded` | sys/task.c:211-302 | In a new process every page of every file area is mapped, open to user code at all four levels, and holds the image's bytes; no older mapping or data has changed |
| `Process.StackIsThere` | sys/task.c:278-291 | A new process's stack pointer lies in a page that its own code may use, also after the other areas are loaded |
| `Process.SegmentIsOpen` | sys/task.c:239-243 | A new process may use every byte from p_vaddr to p_vaddr + p_memsz of its segments, those behind the file's included |
| `Process.SegmentHolds` | sys/task.c:249-264 | After create_process the new process finds byte 8 p_offset + p_vaddr mod 4096 + j of the file at byte j of a segment |
| `Process.SegmentIsRight` | sys/task.c:211-302 | A segment with p_offset 0 on a page boundary: the byte at p_vaddr + j in the new process is byte p_offset + j of the file |
| `Process.SegmentIsRightFor` | sys/task.c:251 | For each file in memory, the new process holds the bytes that the ELF format names exactly if the file repeats them where the loader looks |
| `Process.RightForAllFiles` | sys/task.c:251 | Every file does exactly if the segment is empty or starts the file on a page boundary |
| `Process.SegmentGoesWrong` | sys/task.c:251 | For any other segment, a file whose first byte of the segment is zero and of which create_process makes a process that finds one there |
| `Creation.FourEach` | sys/paging.c:436-456 | A run of free pages can be mapped while four frames a page are left, and takes no more |
| `Creation.CanLoadAreas` | sys/task.c:230-295 | Areas with pages of their own can be loaded one after the other: each leaves the pages of the next free |
| `Creation.CanCreate` | sys/task.c:211-302 | What a caller can check before create_process: areas whose pages are apart and lie below slot 510, filled from mapped data, 16 frames and four more a page, 16 KiB of heap |
| `Creation.ImageBuilt` | sys/task.c:250-251 | In any system with room the kernel can have any file in memory, mapped in frames that are in use for data |
| `Creation.ImageIsRun` | sys/task.c:250-251 | That system is reached by an allocation and stores |
| `Creation.SettingMet` | sys/task.c:211-302 | From such a file a process can be created, for every list of areas with room |
| `Creation.RightForAllImages` | sys/task.c:251 | In every system with room: each file gives a process with the bytes that the ELF format names exactly if it repeats them where the loader looks, and all files do exactly if the segment is empty or starts the file on a page boundary |
| `Creation.ImageGoesWrong` | sys/task.c:251 | In every system with room, for every other segment, a process with a wrong byte |
| `Creation.OneSegmentGoesWrong` | sys/task.c:251 | The same for an executable with one segment in the lower half, with the frames and the heap that it takes in numbers |
| `FirstProcess.StartFirstProcess` | sys/main.c:130-407 | From the memory map to the first process, for an executable in the kernel's image: start and create_process find all that they need, the process is made of the bytes that lay there before, and all p_memsz bytes of every PT_LOAD segment are open to it |
| `FirstProcess.SomeFirstProcessGoesWrong` | sys/main.c:383-407 | A machine and an executable of one byte that meet these preconditions, and whose first process finds a one where the file has a zero |

## Left out

- Paging.Kernel.WalkAndMap: one member stands for page_walk and page_walk_user, which differ only in the flags; what either does when the list runs out is not modelled beyond `Paging.ExhaustionUnseen`, since it then reads a list node at KERNBASE; nor are addresses in slot 510, where the walk would change tables as if they were pages.
- Boot.MapAllKernelPages: tables are read and written as frames; the loader's mapping, under which KERNBASE plus a physical address names the same memory as the physical address, is taken for granted while booting.
- Boot.GetNextFreePage: list nodes are accessed by physical address, as the boot code does.
- FreeList.AddKeeps: for regions that do not touch; `FreeList.AddApart` says when the frames differ otherwise, and the kernel is not followed further with a frame listed twice.
- FreeList.AppendFreeList: the list must end below the pages of the region, whose clearing would wipe out nodes; memory is accessed by physical address; the second memset, through the kernel address, clears the same words again.
- Start.ReadMemoryMap: the same room for the list.
- Start.Start: the same, listed pages that read as zero in their last 3584 bytes, since only an eighth of each page is cleared, regions that ascend without touching, and physfree on a page boundary, since the heap's place is computed from it; the search for the memory map in the boot module list, and the start of devices between the calls, are left out; the memory map is a parameter.
- Heap.Kmalloc: needs a list that holds enough frames, which the code does not test (`Paging.ExhaustionUnseen`); the heap is kept below the end of the address space by a precondition; wrap-around at 2^64 is not modelled.
- Heap.KmallocUser: the same as for `Heap.Kmalloc`; so for Heap.AllocatePages, Heap.CreateNewPml4 and Heap.KmallocTopVirtualAddressUser, the last also out of slot 510.
- Paging.Kernel.GetNextFreePageKmalloc: needs a list that is not used up, since the code then reads a node at KERNBASE.
- Runs.KernelHalfAgreement: stores of user code through slot 510 are no operations of a run; with them the agreement need not last (`Protection.WindowAccess`).
- Runs.StepOutcome: operations are atomic, as they are with interrupts off; user mappings lie below slot 510, which kmalloc_top_virtual_address_user does not check, nor create_process of p_vaddr.
- Runs.RunKeeps: the same runs.
- Context.RoundTrip: generate_timer's own stack frame is the single word that `sys/schedule.c:152-153` assumes, the segment registers ds to gs and cr3 are not part of a context (`Timer` sets them), and the address of irq0 is an arbitrary constant of which only the offsets 0x1b and 0x20 matter.
- Context.RunsRefine: runs go on where a tick would put a process on the queue twice, which the linked list cannot follow (`Timer.ListLasts` says for which runs this does not happen); a process runs in its own ring, leaves other kernel stacks alone and, in ring 0, keeps room for one frame on its own; new kernel stacks are zero, 16-byte aligned and disjoint.
- Timer.Computer.Irq0: the registers that C code may change while the handler runs are kept, since irq0 overwrites them all; at a scheduling tick the running process must not be behind the head of the queue, where `schedule_old_process` would link it to itself (`Timer.WouldRepeat`).
- Timer.Computer.GenerateTimer: cr3 is a field of this machine; what a switch does to translations is in `Runs`.
- Scheduler.TickConserves: the queue after idle has been both queued and running is not followed further.
- FirstProcess.StartFirstProcess: the program headers are parameters; the blocks that load_elf_vmas takes from the heap, and the reading of the archive between start and create_process, are left out.
- Elf.LoadElfVmas: the structures are new objects instead of blocks of kmalloc_user.
- CString.StrCpy: source and target are different buffers.
- Tarfs.Vfs.RootedName: `root_directory` points at a one-byte literal in the source; the model gives it a buffer of 128 bytes.
- Tarfs.Vfs.AssignVfsSlot: an entry keeps the string, not the bytes behind its end.
- Tarfs.Vfs.TarfsInit: needs an image whose headers are complete, with names that end in their field, sizes that fit a C int and at most 2048 entries; the offset is not bounded to 32 bits.
- Tarfs.Vfs.TarLs: what it prints.
- Process.CreateProcess: the control block's own words in memory, which memset clears and create_process fills, are values here; the areas must not share pages, lie below slot 510 and not wrap around, which create_process does not check: kmalloc_top_virtual_address_user returns 0 for a page that is mapped, and the copy then goes to address 0.
- Process.MakeSpace: the memset of the control block and the words stored in it are not followed in memory.
- Process.LoadFileArea: the area's pages are free, since for a mapped page the copy goes to address 0; the source bytes must lie in mapped frames of the kernel that are in use for data, as the archive in the kernel image does.
- The accessed and dirty bits, large pages and the TLB: entries only go from absent to present on the modelled paths.
- `map_kernel_page(s)`, `kmalloc_old`, `map_mem_to_pages`, `create_free_list`, `kmalloc_top_virtual_address_kernel` (the user variant with the kernel's flags), `switch_to`, `first_process_switch` and the code of `start` after its setup: unused or superseded.
- `schedule_ready_process` and `add_sleeping_process`: copies of modelled members with other constants or another queue.
- Ports, PIC, PIT, GDT, IDT, AHCI, keyboard, console output and system calls: no algorithm to verify, or not determined by the source.
- `traverse_tarfs`, `get_file_offset`, `test_offset`, `get_file_content`, `tar_lookup` and `open_tarfs`: debugging scans, or simple uses of what is modelled.
- `map_all_kernel_pages` on pages that are mapped already: they are remapped without notice; the model covers it, but the window's invariant is only established for the two calls of `start`.
