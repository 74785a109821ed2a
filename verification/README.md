# A verified model of the mittos64 kernel

This project models the stateful core of a small x86-64 kernel in Dafny and proves what it
is meant to keep. The model follows the code branch by branch: page tables and free lists are
words in a modelled memory, heap headers are bytes in the heap, a context switch is its pushes
and pops. Ghost state (a tree, a chunk list, a sequence) says what those words mean, and every
operation is proved to keep the two in step.

`dafny verify dfyconfig.toml` checks everything.

The groups, and the main result of each:

- **Frames and paging.** `PhysicalMemory`, `FrameAllocator`, `PageTables`, `TableTeardown`,
  `PageCopy`, `PageMapping`, `AddressSpaces`, `AreaLists`, `SpaceViews`, `Forking`, `Lifetimes`,
  `Isolation`, `ElfLoading`. The four-level tables refine a flat map from pages to entries;
  every frame has one owner; user code may read and write exactly the pages that areas cover
  (`AddressSpaces.CoveredMayUse`), and every space reaches the kernel through the same entry;
  over any run of map, unmap, resize, set-up and stack growth whose steps meet the conditions
  below the areas are what the operations make of them and the mapped pages are exactly those
  the areas cover (`Lifetimes.Run`), and tearing the space down gives back exactly the frames it
  took, less those the growing kernel heap popped from the same stack (`Lifetimes.Live`). A fork
  reads the same bytes through frames of its own (`Forking.Fork`), and whatever such a run one
  of two spaces goes through, the other stays valid and reads the same bytes
  (`Isolation.RunBeside`).
- **Kernel heap.** `ByteMemory`, `KernelHeap`, `HeapAllocator`, `HeapClients`. Between calls the
  chunks tile the heap, their links are inverse and no two neighbours are free; kmalloc is first
  fit, ends after one growth, and no call changes a byte of a live block. Over any history of
  requests every live block holds what its owner last stored in it, and no request is refused
  while all the memory asked for fits (`HeapClients.Run`).
- **Ready queue, scheduler, context switch.** `ReadyQueue`, `Scheduling`, `ScheduleHistory`,
  `FreedThread`, `FamilyLists`, `FamilyOverlaps`, `ContextSwitch`. Any calls on the linked ready
  queue hand threads out first in, first out (`ReadyQueue.Run`). In every state that any number
  of CPUs can reach, each thread is in exactly one place, no loaded address space is a freed
  one, and a step uses a freed thread if and only if it is the advance of the loop in
  process_free, which every successful wait makes (`Scheduling.EveryReachableStateIsSafe`). Over
  any run threads leave the queue in the order they came, a forked process stays its forker's
  child until that exits, and a wait that returns has freed a child (`ScheduleHistory`). This
  takes an operation on the list of init's children as one step; `FamilyLists` and
  `FamilyOverlaps` take that list store by store. A thread switched to, on whichever CPU, goes
  on with the registers and return address it had when it was last switched away from, whatever
  ran in between (`ContextSwitch.ResumedAsLeft`), or at its entry if it is new
  (`ContextSwitch.CreatedStartsAtEntry`).
- **Pipe.** `Pipe`, `PipeRuns`. Under any interleaving of readers and writers on the ring, with
  its wrapping copies, what came out and what the ring holds are what went in, in order, every
  call that has returned has put in exactly the buffer it was passed, and another writer's bytes
  come between a writer's own only where the pipe was full (`PipeRuns.Run`).
- **Bytes.** `CStrings`, `Mounts`, `AtaFiles`, `ArgumentBlock`. Mount lookup over a non-standard
  strncmp, unaligned disk access over whole blocks, and the argument block of a new program.

Some properties turned out to hold only under a condition:

- procmm_resize keeps pages and areas in step if and only if the old end is not a page multiple
  or the end does not move (`AddressSpaces.ResizeExact`): from an aligned end
  kernel/proc/procmm.c:121 skips a page, as `AddressSpaces.ResizeSkipsAPage` shows.
- A stack-growth fault keeps the areas in order if and only if no area reaches into the page
  below the stack (`AddressSpaces.GrownExact`); where one does, the frame of that one page is
  lost and everything else kept (`PageMapping.MapPage`, `AddressSpaces.Space.PageFault`).
  `AddressSpaces.StackGrowsIntoHeap` is such a layout.
- A fork copies every area if and only if no two areas touch (`Forking.ForkIsComplete`): the
  overlap test of kernel/proc/procmm.c:68 counts areas that only touch as overlapping, and
  `Forking.TouchingIsDropped` is such a list.
- Mapping an area links it into its place if and only if no area lies above it
  (`AreaLists.MapLinksIff`); below another, LIST_INSERT_BEFORE (kernel/include/list.h:49-58)
  leaves a broken list.
- process_free advances its loop over the threads through the link of the thread it has just
  freed (kernel/proc/process.c:108, kernel/include/list.h:46-47). This is the only use of a
  freed thread, and it is made once for every child reaped (`Scheduling.NothingFreedIsTouched`;
  `FreedThread.FreedThreadIsRead` is a run of one fork, exit and wait). The read gives the null
  link that was there before as long as nothing has been allocated over the block since: kfree
  leaves the block's own bytes alone (`HeapAllocator.Heap.Kfree`).
- Freeing a frame leaves a free stack that ends if and only if the frame was not on it
  (`FrameAllocator.FreeEndsIff`). Tearing down a space after a skipped page or a shared one can
  break this: a lookup of an unmapped page gives 0 (`PageTables.UnmappedIsFrameZero`), so frame
  0 is freed, and a frame freed twice in a row stays on top of the stack for ever
  (`FrameAllocator.FreedTwice`).
- An orphan's adoption (kernel/proc/process.c:87) and the reaping of a child of init
  (kernel/proc/process.c:113-117) share no lock. While operations on init's list do not overlap,
  none of their stores touches a freed process and the list is what they make of it
  (`FamilyLists.ExclusiveRunsAreSafe`, `FamilyLists.ExclusiveRunsSpell`); this is sufficient for
  any number of operations, not necessary. What is exact is shown for two kinds of overlap. One
  adoption and one reaping, their stores woven in any way, touch a freed process, and leave the
  wrong list, exactly when `FamilyOverlaps.OverlapTouches` and `FamilyOverlaps.OverlapSpells`
  say so. An adoption overtaken by any whole operations between its read of the tail and its
  store through it touches a freed process if and only if the process last on the list has been
  reaped meanwhile (`FamilyLists.OvertakenAppend`). `FamilyOverlaps.RaceTouchesFreed` is a run
  that does. Other overlaps can fail too: `FamilyOverlaps.AdoptionsRace` is a run of two
  overlapping adoptions after which a reaping that nothing overlaps touches a freed process.

Operations that would fault or hang in the kernel are either returned as an outcome (kfree
outside the heap, shrinking an area, a free stack that runs empty while memory is set up) or
excluded by the exact amount they need (`PageMapping.Need`, `Forking.ForkNeed`,
`ElfLoading.SegmentsNeed` count the frames; 64-bit addresses do not wrap).

## Model

| member | source | states |
|---|---|---|
| `FrameAllocator.StackIsUnique` | kernel/mem/pmm.c:8-30 | the links in the free frames determine the free stack: two readings of one memory agree |
| `FrameAllocator.StackIsAcyclic` | kernel/mem/pmm.c:8-30 | a free stack that ends never visits a frame twice |
| `FrameAllocator.StackPush` | kernel/mem/pmm.c:24-30 | storing the old top in a frame's first word and making it the top puts exactly that frame on the stack |
| `FrameAllocator.StackFrame` | kernel/mem/pmm.c:8-30 | writes to frames that are not free leave the free stack as it is |
| `FrameAllocator.FreeEndsIff` | kernel/mem/pmm.c:24-30 | freeing a frame leaves a stack that ends if and only if the frame was not on it |
| `FrameAllocator.FreedTwice` | kernel/mem/pmm.c:10-30 | a frame freed twice in a row is linked to itself: taking it leaves it on top, and no sequence of frames is the stack |
| `FrameAllocator.Machine.constructor` | kernel/mem/pmm.c:6-8 | before anything is freed the allocator is in its bump phase, at the end of the kernel |
| `FrameAllocator.Machine.Alloc` | kernel/mem/pmm.c:10-22 | takes the frame at pmm_pos before the first free, the top of the stack after it, and freezes pmm_pos from then on |
| `FrameAllocator.Machine.Free` | kernel/mem/pmm.c:24-30 | the frame of the address, flags ignored, becomes the top of the stack; only its first word changes |
| `FrameAllocator.Machine.AllocMany` | kernel/mem/vmm.c:79-103 | exactly as many frames as new tables need leave the stack, in order; it runs dry exactly when it has too few |
| `FrameAllocator.VisitedOnce` | kernel/mem/pmm.c:38-51 | over disjoint areas the set-up loop meets each frame once |
| `FrameAllocator.Machine.InitFrame` | kernel/mem/pmm.c:41-50 | one frame: mapped, then freed unless it is kernel, bumped, used or reserved |
| `FrameAllocator.Machine.InitArea` | kernel/mem/pmm.c:41-50 | one area, whichever tables its mappings take from the frames just freed |
| `FrameAllocator.Machine.Init` | kernel/mem/pmm.c:33-53 | the free stack, with the frames popped for tables meanwhile, is exactly the offered frames that are neither used nor kernel nor bumped; nothing is on it twice |
| `PageTables.OffsetsAreKeys` | kernel/include/mem.h:21-25 | the four offsets of an address are the digits of its page number in base 512 |
| `PageTables.KernelSlotIs` | kernel/include/mem.h:3-25 | slot 511 of the top table is the kernel's, and a page is a user page exactly when its address lies under another slot |
| `PageTables.OrBits` | kernel/mem/vmm.c:10-11 | bit by bit, the flags are combined as an or |
| `PageTables.AddFlags` | kernel/mem/vmm.c:10-11 | the frame of the address is kept and its low bits are or'ed with the flags'; an aligned address and its flags can be told apart again |
| `PageTables.WalkIsEntry` | kernel/mem/vmm.c:73-113 | the walk from the top table finds, for every user page, the entry of the flat view |
| `PageTables.MappedIffEntry` | kernel/mem/vmm.c:107-113 | a page is a leaf of the tree if and only if its entry is not 0, and the entry names the leaf's frame |
| `PageTables.UnmappedIsFrameZero` | kernel/mem/vmm.c:107-113 | a page is unmapped exactly when looking it up gives 0, so that procmm_unmap frees frame 0 for it |
| `PageTables.PageMayUse` | kernel/mem/vmm.c:79-103 | a page whose last entry is present, writable and user has those three flags, and no other, in every entry on the way |
| `PageTables.SameKernel` | kernel/mem/vmm.c:16-22 | two top tables with the same entry in slot 511 translate every kernel page alike |
| `PageTables.LinkTable` | kernel/mem/vmm.c:79-103 | hanging a zeroed frame into an empty slot adds one table with one parent and changes no page's entry |
| `PageTables.StoreEntry` | kernel/mem/vmm.c:115-122 | storing an entry changes that page of the flat view and no other |
| `PageTables.Unlink` | kernel/mem/vmm.c:54-67 | clearing the slot of a node without children removes just that node |
| `PageTables.TreeFrame` | kernel/mem/vmm.c:73-122 | the tree depends on its tables alone |
| `PageTables.NewP4` | kernel/mem/vmm.c:16-22 | a new top table maps no user page and shares the kernel slot |
| `PageTables.NewTable` | kernel/mem/vmm.c:82-84 | a missing table takes one frame, is hung in, and every page's entry stays |
| `PageTables.TouchChild` | kernel/mem/vmm.c:79-86 | one level of the walk, with the table made where it is missing |
| `PageTables.TouchPage` | kernel/mem/vmm.c:73-105 | the walk takes exactly the frames for the tables that are missing and leaves every entry |
| `PageTables.GetPage` | kernel/mem/vmm.c:107-113 | returns the entry the walk finds, 0 where a table is missing, and changes nothing |
| `PageTables.SetPage` | kernel/mem/vmm.c:115-122 | get after set is phys with flags, every other page's entry is unchanged even when up to three tables are made, and each table keeps one parent |
| `TableTeardown.FreeNode` | kernel/mem/vmm.c:54-67 | a frame whose last use is over goes to the free stack and its slot is cleared; no table is read after it was freed |
| `TableTeardown.FreeBelow` | kernel/mem/vmm.c:35-69 | the loop over one table frees everything below it and keeps everything else; the top table stops short of slot 511 |
| `TableTeardown.FreeP4` | kernel/mem/vmm.c:32-71 | every page and table frame and the top table reach the free stack exactly once; no other frame is written |
| `PageCopy.CopyBytes` | kernel/mem/string.c:9-15 | a copied page has the source's bytes in the range and its own elsewhere |
| `PageCopy.Memcpy` | kernel/mem/string.c:9-15 | the byte loop does that copy, in one frame only |
| `PageCopy.FillBytes` | kernel/mem/string.c:17-22 | a filled page has the value in the range and its own bytes elsewhere |
| `PageCopy.Memset` | kernel/mem/string.c:17-22 | the byte loop does that fill, in one frame only |
| `PageCopy.TreeTranslates` | kernel/mem/vmm.c:136-139 | the user view of the tree is what the walk translates by |
| `PageCopy.CopyPass` | kernel/mem/vmm.c:130-145 | one pass copies a piece inside one page on each side, or nothing exactly when either page is unmapped |
| `PageCopy.P4Memcpy` | kernel/mem/vmm.c:125-148 | for any placement of frames and any offsets the loop is a flat copy up to the first byte whose page is unmapped on either side; it returns n if there is none and 0 otherwise |
| `PageCopy.FillPass` | kernel/mem/vmm.c:155-165 | one pass fills a piece inside one page, or nothing exactly when it is unmapped |
| `PageCopy.P4Memset` | kernel/mem/vmm.c:150-168 | the loop is a flat fill up to the first byte whose page is unmapped; it returns n if there is none and 0 otherwise |
| `PageMapping.MapPage` | kernel/proc/procmm.c:84-88 | a fresh frame is mapped, present, writable and user at every level; on an unmapped page every frame stays accounted for, on a mapped one exactly its old frame is lost, unwritten; either way every other page translates as before, and its bytes and every frame of neither tree nor stack are kept |
| `PageMapping.UnmapPage` | kernel/proc/procmm.c:95-101 | the page's frame goes back to the free stack and only that page is unmapped; every other page translates as before |
| `PageMapping.MapPages` | kernel/proc/procmm.c:83-88 | exactly the pages of the range are added, at exactly the cost counted, and no other page's bytes change; each is present, writable and user, and every other page translates as before |
| `PageMapping.UnmapPages` | kernel/proc/procmm.c:94-101 | exactly the pages of the range are removed and their frames given back |
| `PageMapping.NeedAtMost` | kernel/proc/procmm.c:83-88 | mapping takes at most four frames a page |
| `AddressSpaces.Space.constructor` | kernel/proc/procmm.c:8-25 | a space without source is empty and owns one frame; it has the boot table's entry for the kernel |
| `AddressSpaces.Space.Overlaps` | kernel/proc/procmm.c:66-79 | the scan finds an overlap exactly when some area and the new one share or touch at an address |
| `AddressSpaces.Space.Map` | kernel/proc/procmm.c:57-91 | refused with nothing changed, or the area is appended and exactly its pages are mapped |
| `AddressSpaces.Space.Unmap` | kernel/proc/procmm.c:92-104 | the area goes, its pages are unmapped and its frames given back |
| `AddressSpaces.Space.Setup` | kernel/proc/procmm.c:135-146 | the heap area starts on the page after the last area and the empty stack area is added, unless the heap reaches it |
| `AddressSpaces.ResizeExact` | kernel/proc/procmm.c:109-126 | pages and areas stay in step if and only if the old end is not a page multiple or does not move |
| `AddressSpaces.Space.Extend` | kernel/proc/procmm.c:119-126 | the area's end moves and the pages from the next page boundary on are mapped |
| `AddressSpaces.Space.Resize` | kernel/proc/procmm.c:106-133 | grows up to the next area, returns the length reached, and hangs exactly when asked not to grow; the area gets the length asked for, or ends where the next one starts |
| `AddressSpaces.GrownExact` | kernel/proc/procmm.c:160-165 | the mapped pages stay those covered; the areas stay in order if and only if no area reaches into the page below the stack |
| `AddressSpaces.ResizeSkipsAPage` | kernel/proc/procmm.c:121-126 | an area grown from a page boundary: the page at its old end is covered and unmapped |
| `AddressSpaces.StackGrowsIntoHeap` | kernel/proc/procmm.c:160-165 | a heap that reaches the stack: the page below the stack is the heap's, and growing leaves overlapping areas |
| `AddressSpaces.Space.GrowStack` | kernel/proc/procmm.c:163-164 | one page more; when it was mapped already exactly its frame is lost, and all other pages and frames are kept |
| `AddressSpaces.Space.PageFault` | kernel/proc/procmm.c:148-171 | handled exactly when the address is below the kernel and at most a page below the stack; then one page more, with nothing lost, or exactly the one frame when an area reaches there; the page of a fault below the stack can be used afterwards |
| `AddressSpaces.Space.FreeMap` | kernel/proc/procmm.c:27-41 | every frame of the space is on the free stack once; no frame of anyone else is written |
| `AddressSpaces.CoveredMayUse` | kernel/proc/procmm.c:84-88 | in a valid space the user pages whose walk lets user code read and write are exactly those the areas cover |
| `AddressSpaces.CoveredAppend` | kernel/proc/procmm.c:57-91 | adding an area covers its pages and no more |
| `AddressSpaces.CoveredWithout` | kernel/proc/procmm.c:92-104 | removing an area uncovers its pages and no others |
| `AreaLists.InsertedLeaves` | kernel/include/list.h:49-58 | inserting before each area above in turn links the last of them back to the new area, and the new one to the last's old predecessor only |
| `AreaLists.MapLinksIff` | kernel/proc/procmm.c:64-81 | the list is the old one with the new area in its place if and only if no area lies above the new one |
| `SpaceViews.Isolated` | kernel/proc/procmm.c:8-25 | a write through one space's pages changes no byte that a space with other frames reads |
| `Forking.ForkIsComplete` | kernel/proc/procmm.c:17-21 | a fork keeps every area if and only if no two areas touch |
| `Forking.TouchingIsDropped` | kernel/proc/procmm.c:66-74 | two areas that only touch: the second is not copied |
| `Forking.CopyArea` | kernel/proc/procmm.c:17-21 | one area: mapped in the child and byte for byte the same, or skipped, with the parent's frames untouched |
| `Forking.Fork` | kernel/proc/procmm.c:8-25 | every byte of every area kept reads the same in the child; the parent's frames are unchanged and the two share none; the child has neither a heap nor a stack area marked, so its stack can never grow; every page of either may be used by user code |
| `Lifetimes.CostEnough` | kernel/proc/procmm.c:83-88 | the bound a run is charged covers what its mappings take |
| `Lifetimes.Perform` | kernel/proc/procmm.c:57-171 | any one operation does to the areas what it should, leaves exactly their pages mapped, and moves frames between the space, the free stack and the kernel heap only |
| `Lifetimes.TakeForKernel` | kernel/mem/heap.c:25-29 | the kernel heap growing by n pages takes n frames and leaves the space as it is |
| `Lifetimes.Run` | kernel/proc/procmm.c:57-171 | after any run the areas are those the operations make one by one, the mapped pages are exactly the pages they cover, and every frame is accounted for |
| `Lifetimes.Live` | kernel/proc/procmm.c:8-171 | from creation through any run to procmm_free_map: the free stack holds the same frames again, once each, less exactly those the kernel heap took, and no other frame was written |
| `Isolation.OthersFrames` | kernel/proc/procmm.c:8-25 | the frames one space moves or writes are never those of another |
| `Isolation.RunBeside` | kernel/proc/procmm.c:8-171 | any run in one space leaves another valid, with the same areas, and every byte of it reads as before |
| `ElfLoading.FillSegment` | kernel/proc/elf.c:50-51 | file bytes, then zeros up to the memory size; all else as before |
| `ElfLoading.LoadSegment` | kernel/proc/elf.c:41-52 | the segment's area is mapped and shows the file's bytes and zeros, for any frame placement and source offset |
| `ElfLoading.LoadElf` | kernel/proc/elf.c:54-75 | after the loop every loadable segment still shows its bytes, and the areas are theirs |
| `ByteMemory.GetPut` | kernel/mem/heap.c:7-13 | a word stored at any byte address reads back |
| `ByteMemory.GetOther` | kernel/mem/heap.c:7-13 | a store changes no word beside it |
| `KernelHeap.JoinLinks` | kernel/mem/heap.c:40-45 | the stores of a merge leave every header as the joined list wants it, p and n inverse |
| `KernelHeap.JoinKeeps` | kernel/mem/heap.c:40-45 | those stores change no byte of a block in use |
| `KernelHeap.JoinedTiles` | kernel/mem/heap.c:40-45 | joined chunks still tile the heap |
| `KernelHeap.SplitLinks` | kernel/mem/heap.c:65-77 | the stores of a split leave every header as the split list wants it |
| `KernelHeap.SplitKeeps` | kernel/mem/heap.c:65-77 | those stores change no byte of a block in use |
| `KernelHeap.SplitTiles` | kernel/mem/heap.c:65-77 | split chunks still tile the heap |
| `KernelHeap.MergedHasNoPair` | kernel/mem/heap.c:34-56 | merging the one chunk that may have free neighbours leaves no two free neighbours |
| `KernelHeap.MergedUses` | kernel/mem/heap.c:34-56 | merging leaves the blocks in use as they were |
| `KernelHeap.TakenHasNoPair` | kernel/mem/heap.c:101-108 | handing a chunk out, split or not, makes no two free neighbours |
| `KernelHeap.TakenUses` | kernel/mem/heap.c:101-108 | handing a chunk out adds just that block to those in use |
| `HeapAllocator.ChunksAreDisjoint` | kernel/mem/heap.c:7-13 | two chunks, headers included, share no byte and lie below heap_max |
| `HeapAllocator.AllFreedIsOneChunk` | kernel/mem/heap.c:34-56 | once everything is freed the heap is one free chunk |
| `HeapAllocator.PlaceIs` | kernel/mem/heap.c:96-111 | the address kmalloc must choose: the first chunk that fits, else the end of the heap |
| `HeapAllocator.FirstFit` | kernel/mem/heap.c:97-109 | the chunk taken is the lowest of the free ones that are large enough, and is cut to size exactly when the rest is worth a header |
| `HeapAllocator.GrownFacts` | kernel/mem/heap.c:113-131 | the chunk added by growing fits exactly and is the only one that does, so the retry ends |
| `HeapAllocator.Heap.constructor` | kernel/mem/heap.c:16-19 | the heap starts empty |
| `HeapAllocator.Heap.Absorb` | kernel/mem/heap.c:40-45 | a chunk takes over its successor, in memory and in the list |
| `HeapAllocator.Heap.MergeChunk` | kernel/mem/heap.c:34-56 | the chunk is joined with free neighbours on both sides; live bytes stay |
| `HeapAllocator.Heap.SplitChunk` | kernel/mem/heap.c:58-78 | the rest becomes a free chunk exactly when it is worth a header; live bytes stay |
| `HeapAllocator.Heap.Ksbrk` | kernel/mem/heap.c:21-32 | heap_max moves by size, brk stays page aligned with heap_max <= brk < heap_max + 4096, all below brk is mapped and old bytes stay |
| `HeapAllocator.Heap.AddChunk` | kernel/mem/heap.c:113-129 | a free chunk of the requested size is linked behind the last |
| `HeapAllocator.WordStays` | kernel/include/list.h:46-47 | a word inside a block whose bytes stay, such as the link of a thread just freed, reads as before |
| `HeapAllocator.Heap.Kfree` | kernel/mem/heap.c:80-92 | stops the machine exactly outside the heap; otherwise the block is no longer in use, all other blocks keep their bytes, and so does the freed block until something is allocated over it; no two neighbours are free |
| `HeapAllocator.Heap.Kmalloc` | kernel/mem/heap.c:94-132 | the heap grows, once, if and only if no free chunk is at least as large as asked for; otherwise the lowest such chunk is taken, whole unless the rest is worth a header; one new block, behind a header of 32 bytes, all others keep their bytes, and no two neighbours are free afterwards |
| `HeapClients.MallocFacts` | kernel/mem/heap.c:94-132 | a new block has an address no live block has, and those keep their bytes |
| `HeapClients.FreeFacts` | kernel/mem/heap.c:80-92 | all blocks but the freed one keep their bytes |
| `HeapClients.StoreFacts` | kernel/mem/heap.c:7-13 | a client writing inside its own block changes no header and no other block |
| `HeapClients.NothingRefused` | kernel/mem/heap.c:94-132 | while all the memory asked for fits, there is a new block for every request |
| `HeapClients.Serve` | kernel/mem/heap.c:80-132 | one request by address and size: answered as it should be, refused only when there is no room; the heap stays valid and holds what the history says |
| `HeapClients.Run` | kernel/mem/heap.c:80-132 | from an empty heap through any requests: the history answers them one by one, the live blocks are those handed out and not freed, each holds exactly what was last stored in it, and nothing is refused while it fits |
| `ReadyQueue.Queue.Append` | kernel/include/list.h:15-24 | appends to the sequence the links spell |
| `ReadyQueue.Queue.Remove` | kernel/include/list.h:26-41 | removes the element at any position and detaches it |
| `ReadyQueue.Queue.Empty` | kernel/include/list.h:43-43 | true exactly for the empty sequence |
| `ReadyQueue.Queue.SchedulerInsert` | kernel/proc/scheduler.c:18-25 | the thread is last in the queue and ready |
| `ReadyQueue.Queue.SchedulerNext` | kernel/proc/scheduler.c:35-48 | takes the first thread, or null exactly when the queue is empty |
| `ReadyQueue.QueueIsFifo` | kernel/proc/scheduler.c:18-48 | over any run of the sequence the linked queue is proved to follow, what came out followed by what is queued is what was queued followed by what went in |
| `ReadyQueue.InsertedComesOutInTurn` | kernel/proc/scheduler.c:18-48 | in such a run a thread inserted behind k others is what the (k + 1)-th successful take returns |
| `ReadyQueue.Step` | kernel/proc/scheduler.c:18-48 | one call on the linked queue does what it does to the sequence |
| `ReadyQueue.Run` | kernel/proc/scheduler.c:18-48 | any calls on the linked queue hand out and leave linked exactly what the sequence does, so threads leave in the order they came |
| `Scheduling.InitialPlaced` | kernel/boot/kmain.c:42-50 | one task, queued, and CPUs that have not called schedule: every task has its place |
| `Scheduling.OwnKeeps` | kernel/proc/scheduler.c:50-99 | a CPU changing only itself and the thread it holds keeps every task in one place |
| `Scheduling.HandBackKeeps` | kernel/proc/scheduler.c:56-65 | the top of the loop: the last thread is made ready, or finished when its process is dead |
| `Scheduling.InsertOldKeeps` | kernel/proc/scheduler.c:60-61 | queueing the last thread again |
| `Scheduling.PickKeeps` | kernel/proc/scheduler.c:67-68 | taking the next thread |
| `Scheduling.CheckKeeps` | kernel/proc/scheduler.c:70-76 | the test for a dead process, with both of its branches |
| `Scheduling.LoadKeeps` | kernel/proc/process.c:55-76 | switching to the thread's process |
| `Scheduling.MoveKeeps` | kernel/proc/thread.c:46-54 | leaving a thread's stack, and entering one |
| `Scheduling.ScheduleKeeps` | kernel/proc/scheduler.c:84-99 | a thread giving up the CPU |
| `Scheduling.ForkKeeps` | kernel/syscall/sys_proc.c:11-26 | a new process and thread, not yet queued |
| `Scheduling.InsertKeeps` | kernel/syscall/sys_proc.c:26-26 | handing the new thread to the scheduler |
| `Scheduling.ExitKeeps` | kernel/proc/process.c:78-99 | a process becomes a zombie; at most one of its children, any one, changes parents |
| `Scheduling.FreedKeeps` | kernel/proc/process.c:101-118 | freeing a dead child's thread, the advance of the loop that reads from it, then unlinking and freeing its process in one step |
| `Scheduling.StepKeeps` | kernel/proc/scheduler.c:18-99 | every step of every CPU keeps every task in exactly one place |
| `Scheduling.OnePlace` | kernel/proc/scheduler.c:18-99 | each thread is in exactly one of: being forked, the queue (once), one CPU, finished |
| `Scheduling.NothingFreedIsTouched` | kernel/proc/process.c:101-118 | a step reads or writes a freed thread or stack if and only if it is the advance of the loop in process_free and the thread is the child's; no step uses a freed address space that is loaded, or a freed process that it gets at otherwise than through sibling links |
| `Scheduling.NobodyIsStuck` | kernel/proc/scheduler.c:50-82 | every CPU can step, unless it waits for the queue to fill |
| `Scheduling.EveryReachableStateIsSafe` | kernel/proc/scheduler.c:50-99 | for any number of CPUs and any order of steps: one place per thread, queued threads ready and their processes alive, finished threads' processes exited, each CPU in the address space of the thread it runs and the scheduler in none, stacks and address spaces freed only once every CPU has left them, the dead-process branch never taken, exit never returned from, a freed thread used exactly by the advance of the loop in process_free, and nothing else freed used other than through sibling links |
| `ScheduleHistory.WritesAreTouched` | kernel/proc/scheduler.c:50-99 | what a step changes of a thread or of a process belongs to one that its footprint names |
| `ScheduleHistory.ParentStays` | kernel/proc/process.c:78-99 | over any run a process keeps its parent until that exits and hands it on, and is then the child of init |
| `ScheduleHistory.ChildOfItsForker` | kernel/proc/process.c:10-24 | a forked process is the child of the process that forked it until that exits and hands it on; the wait that can find it is that parent's, exactly from its exit until it is freed |
| `ScheduleHistory.ForkedStartsInUserMode` | kernel/syscall/sys_proc.c:11-26 | until a CPU runs it a forked thread stands in user mode |
| `ScheduleHistory.ThreadsLeaveInOrder` | kernel/proc/scheduler.c:18-48 | over any run of any CPUs the threads taken, followed by those queued, are those queued at first followed by those put in |
| `ScheduleHistory.WaitReapsAChild` | kernel/syscall/sys_proc.c:45-68 | a wait is left only when some child of its process has been freed, thread and process, since it was entered |
| `ScheduleHistory.ReapingIsForced` | kernel/proc/process.c:101-118 | once wait has picked a child its CPU can only go through with freeing it, and return |
| `ScheduleHistory.ReapReturns` | kernel/proc/process.c:101-118 | from any reachable state in which wait has picked a child with a finished thread, four steps free thread and process and return to user mode, changing no other task or CPU |
| `ScheduleHistory.ExitEnds` | kernel/syscall/sys_proc.c:29-43 | from any reachable state four steps take a process that exits to the end of its thread, and its CPU to asking for another |
| `ScheduleHistory.TakesATurn` | kernel/proc/scheduler.c:67-82 | from any reachable state four steps take a CPU that asks for a thread to running the first queued one in its address space |
| `ScheduleHistory.YieldQueuesAgain` | kernel/proc/scheduler.c:56-99 | from any reachable state four steps put a thread that gives its CPU up last in the queue, ready to go on where it was |
| `FreedThread.FreedThreadIsRead` | kernel/proc/process.c:108-112 | from the initial state of one CPU a fork, an exit and a wait lead to a state whose next step reads the child's freed thread |
| `FamilyLists.AppendSpells` | kernel/include/list.h:15-24 | the five stores of an append, undisturbed, put the process at the end of the list |
| `FamilyLists.ReapSpells` | kernel/proc/process.c:113-117 | the stores of an unlink and a free, undisturbed, take just that process off the list |
| `FamilyLists.UndisturbedTouches` | kernel/include/list.h:15-41 | no store of an undisturbed operation touches a freed process |
| `FamilyLists.ExclusiveRunsAreSafe` | kernel/proc/process.c:78-118 | for any number of CPUs, as long as an operation starts only when none is under way, no store touches a freed process |
| `FamilyLists.ExclusiveRunsSpell` | kernel/proc/process.c:78-118 | in such a run the list is, whenever nobody is at work on it, what the operations done make of it |
| `FamilyLists.OvertakenAppend` | kernel/proc/process.c:82-117 | an adoption that whole operations overtake between its read of the tail and its store through it touches a freed process if and only if the process last on the list when it read the tail has been reaped meanwhile |
| `FamilyOverlaps.WovenAppend` | kernel/include/list.h:15-24 | a store of an adoption leaves head and links as the weave of the two operations says |
| `FamilyOverlaps.WovenReap` | kernel/include/list.h:26-41 | a store of a reaping likewise |
| `FamilyOverlaps.OverlapTouches` | kernel/proc/process.c:82-117 | one adoption and one reaping, woven store by store in any way: a store touches a freed process if and only if it is the adoption's third, the process reaped was last, the adoption read the tail before the reaping moved it, and the reaping is over |
| `FamilyOverlaps.OverlapSpells` | kernel/proc/process.c:82-117 | when both are over the list is right if and only if the process reaped was not last, or the adoption read it as the tail and made its third store before the reaping's third, or read the tail after the reaping had moved it and there was no other process or it made its third store after the reaping's fourth |
| `FamilyOverlaps.RaceTouchesFreed` | kernel/proc/process.c:82-117 | a run of two CPUs, an adoption and a reaping of the only child, in which the adoption's next store touches the freed process |
| `FamilyOverlaps.AdoptionsRace` | kernel/proc/process.c:82-117 | a run of two overlapping adoptions, both through a live tail, after which three reapings of the list's first process, none overlapping another, end with a store into a freed process |
| `ContextSwitch.PushedWord` | kernel/proc/swtch.S:8-16 | each pushed word is found at its place |
| `ContextSwitch.PushedFrame` | kernel/proc/swtch.S:8-16 | the pushes make a frame for the caller's context |
| `ContextSwitch.LoadedFrame` | kernel/proc/swtch.S:21-30 | unwinding a frame gives its context |
| `ContextSwitch.Core.SaveFrame` | kernel/proc/swtch.S:8-16 | the eight pushes, instruction by instruction |
| `ContextSwitch.Core.LoadFrame` | kernel/proc/swtch.S:22-30 | the pops, leaveq and ret, instruction by instruction |
| `ContextSwitch.Core.Swtch` | kernel/proc/swtch.S:5-30 | saves the caller, stores its stack pointer unless old is null, and loads the frame that new points to |
| `ContextSwitch.Core.UserTrap` | kernel/proc/thread.c:21-28 | the words a return to user mode will take |
| `ContextSwitch.Core.KernelTrap` | kernel/proc/thread.c:29-34 | the same for a kernel thread |
| `ContextSwitch.Core.Label` | kernel/proc/thread.c:36-37 | the number and the ready state |
| `ContextSwitch.Core.InitLinks` | kernel/proc/thread.c:40-41 | no links on either list |
| `ContextSwitch.Core.NewThread` | kernel/proc/thread.c:11-44 | a new thread's stack holds a frame that starts the function with rsp and rdi its own structure and rbp 0; its trap frame, number, state and links are as set, word by word; nothing outside it is written |
| `ContextSwitch.Core.SwitchThread` | kernel/proc/thread.c:46-54 | the thread switched to is current, its stack is where interrupts will start, and it has its recorded context |
| `ContextSwitch.SwitchResumes` | kernel/proc/swtch.S:5-30 | a switch on any CPU gives the new thread its context and leaves every thread that no CPU runs resumable, the old one with the context it had |
| `ContextSwitch.ResumedAsLeft` | kernel/proc/swtch.S:5-30 | over any run of any number of CPUs among disjoint stacks a thread gets back rsp, rbp, rbx, r12 to r15, rdi and the return address of its last switch-out, whichever CPU left it and whichever resumes it (rsp past the return address, register by register) |
| `ContextSwitch.StartedAsLaidOut` | kernel/proc/thread.c:11-54 | a thread laid out before the run and never left starts as it was laid out, on any CPU |
| `ContextSwitch.NewThreadIsCreate` | kernel/proc/thread.c:11-44 | what new_thread does to memory is the creation of a thread, for any stack no other thread uses |
| `ContextSwitch.CreatedStartsAtEntry` | kernel/proc/thread.c:11-54 | a thread created by one CPU during the run starts, when first switched to on any, at its entry with rsp and rdi its own structure, 3352 bytes into its stack, and rbp 0 |
| `Pipe.RingTail` | kernel/fs/pipe.c:70-81 | moving read_pos on drops bytes from the front |
| `Pipe.RingRead` | kernel/fs/pipe.c:73-79 | the bytes in flight are at most two pieces of the ring |
| `Pipe.RingWrite` | kernel/fs/pipe.c:104-116 | storing at write_pos, split at the wrap, appends to the bytes in flight |
| `Pipe.PipeData.constructor` | kernel/fs/pipe.c:135-150 | a new pipe is empty |
| `Pipe.PipeData.ReadPass` | kernel/fs/pipe.c:70-84 | takes the first bytes in flight, as many as asked for and there are |
| `Pipe.PipeData.WritePass` | kernel/fs/pipe.c:104-117 | appends as many bytes as fit and are left |
| `PipeRuns.BytesOfTagged` | kernel/fs/pipe.c:111-117 | an append adds to the bytes of its own call and to no other's |
| `PipeRuns.AppendKeeps` | kernel/fs/pipe.c:97-117 | an iteration of a write keeps the history good |
| `PipeRuns.ReadKeeps` | kernel/fs/pipe.c:62-84 | a read keeps the history good |
| `PipeRuns.EveryRunIsGood` | kernel/fs/pipe.c:56-122 | under any interleaving of passes: read bytes then bytes in flight equal appended bytes, never more than size in flight; each call appended a prefix of its buffer, all of it when it returns; bytes of two calls mix only where the pipe was full |
| `PipeRuns.WholeBuffer` | kernel/fs/pipe.c:87-122 | the buffer of a call is the one its caller passed, and once the call has returned the bytes it appended are exactly that buffer |
| `PipeRuns.SomeoneCanGoOn` | kernel/fs/pipe.c:56-122 | in every reachable state the lock is with an unfinished call that can go on in exactly one way, or free; then a reader can go on exactly unless the pipe is empty, and every unfinished call can |
| `PipeRuns.LockIsGivenUp` | kernel/fs/pipe.c:97-121 | a call that finds the pipe full lets a reader in and can go on after it, and one that is done gives the lock up |
| `PipeRuns.OthersMoveNothing` | kernel/fs/pipe.c:94-101 | while a writer holds the lock nobody else moves a byte |
| `PipeRuns.FittingWriteIsContiguous` | kernel/fs/pipe.c:87-122 | a write that fits when it takes the lock is appended in one piece |
| `PipeRuns.TestsAgree` | kernel/fs/pipe.c:63-97 | the tests on positions are those of the steps |
| `PipeRuns.Perform` | kernel/fs/pipe.c:56-122 | a step on the ring itself moves the bytes the step says, and the positions count the bytes ever moved; a read takes as many bytes as asked for and there are, a write as many as it has left and fit |
| `PipeRuns.Run` | kernel/fs/pipe.c:56-122 | any run on the ring itself: what came out followed by what the ring holds is what went in, in order, and the history is good; every call wrote the buffer it was passed, all of it once it has returned |
| `CStrings.Copy` | kernel/mem/string.c:9-15 | exactly the range is copied |
| `CStrings.StrLen` | kernel/mem/string.c:42-47 | the number of characters before the NUL, without reading past it |
| `CStrings.StrNCmp` | kernel/mem/string.c:49-54 | 0 exactly when the first n characters and the next one agree, or the strings are equal up to an earlier NUL; reads past neither NUL |
| `Mounts.CoversMatches` | kernel/fs/vfs.c:113-114 | comparing with length minus 1 is testing for a prefix |
| `Mounts.ClosestIsUnique` | kernel/fs/vfs.c:107-121 | at most one mount is the closest |
| `Mounts.MountTable.Mount` | kernel/fs/vfs.c:83-91 | the mount is appended with its path and length |
| `Mounts.MountTable.ClosestMount` | kernel/fs/vfs.c:107-121 | the earliest of the mounts with the longest non-empty path that starts the argument, or none exactly when none does |
| `AtaFiles.ReadsBack` | kernel/fs/ata_fs.c:7-68 | what was written reads back at any alignment, and other ranges read as before |
| `AtaFiles.Drive.ReadPiece` | kernel/fs/ata_fs.c:24-30 | a whole block, or part of one through a buffer |
| `AtaFiles.Drive.WritePiece` | kernel/fs/ata_fs.c:55-62 | a whole block, or part of one read, changed and written |
| `AtaFiles.Drive.Read` | kernel/fs/ata_fs.c:7-36 | exactly the bytes of the range, and nbyte; nothing and 0 when there is no drive |
| `AtaFiles.Drive.Write` | kernel/fs/ata_fs.c:38-68 | changes exactly the bytes of the range, and returns nbyte; nothing and 0 when there is no drive |
| `ArgumentBlock.CopiesAreDisjoint` | kernel/proc/exec_elf.c:53-69 | the copied strings do not overlap |
| `ArgumentBlock.CopyHasAsMany` | kernel/proc/exec_elf.c:13-16 | counting the copied pointers up to the null one finds as many as there were |
| `ArgumentBlock.CountStrings` | kernel/proc/exec_elf.c:13-23 | the counting pass adds up the lengths with their NULs |
| `ArgumentBlock.Program.CopyOne` | kernel/proc/exec_elf.c:56-59 | one pointer to one copy, earlier ones untouched |
| `ArgumentBlock.Program.CopyStrings` | kernel/proc/exec_elf.c:54-70 | every pointer refers to a NUL-terminated copy of its string, and a null one ends the array |
| `ArgumentBlock.Program.WriteArguments` | kernel/proc/exec_elf.c:8-72 | the two passes agree: the cursor ends one byte before the size asked for; both arrays, the null aux word and all strings are in place at once; nothing outside and neither the second aux word nor the last byte is written; the parts follow one another without a gap |

## Left out

- Huge pages and the kernel half of the tables: the walk of kernel/mem/vmm.c:73-105 takes a huge entry for a table pointer, so only slots 0 to 510 are modelled, and ksbrk's mapping of kernel pages is a mapping of bytes.
- Four nested loops: vmm_free_P4 is written as one method per table level that calls itself for the level below; order and effects are those of the nested loops.
- Memory is a value held in a field, not a mutable array; each store replaces it. Aliasing between an address space's own pages and the structures of the kernel is excluded by the frames being disjoint.
- FrameAllocator.Machine.InitFrame: the stores of vmm_set_page into kernel tables are left out, only the frames it pops are counted; by FrameAllocator.StackFrame stores outside the free frames do not matter to the stack.
- FrameAllocator.Machine.InitArea: as for InitFrame.
- FrameAllocator.Machine.Init: as for InitFrame; areas lie within the modelled memory.
- Frame 0 is never on the free stack of an address space's machine, because vmm_p4_memcpy reads it as unmapped. pmm_init puts it there when an area starts at address 0 and it is unused; the address-space results do not apply to such a memory map.
- AddressSpaces.Space.Map: areas are mapped in ascending order, the only order that keeps the list (AreaLists.MapLinksIff).
- AddressSpaces.Space.Setup: the heap starts at or below the top of user space, as the stack area would be mapped below it otherwise; the result is not cut down to an int, as no caller uses it.
- AddressSpaces.Space.Resize: needs a following area, as the code reads it without a test; kernel/proc/procmm.c:115 is then never taken.
- AddressSpaces.Space.FreeMap: of a space in which every covered page is mapped once. After a skipped page or a shared one, what teardown gives back is not modelled: it frees frame 0, and clearing the page may make new tables on the way.
- Lifetimes.Perform: a resize from a page-aligned end that moves the end, and stack growth into a covered page, are excluded: by AddressSpaces.ResizeExact and AddressSpaces.GrownExact they put areas and pages out of step.
- Lifetimes.Run: runs with such an operation are excluded.
- Lifetimes.Live: as for Run, and the free stack does not hold frame 0.
- Isolation.RunBeside: as for Lifetimes.Run.
- ElfLoading.LoadSegment: segments ascend and do not touch, as for areas.
- ElfLoading.LoadElf: takes the program headers as a list; the checks of the file's magic number and type, and what a load does after them, are not modelled. Segments ascend, do not touch, start on a page and have no more file bytes than memory bytes.
- Scheduling.EveryReachableStateIsSafe: one thread per process, the only shape that boot and fork create; with several, the loop of kernel/proc/process.c:108-112 would find each next thread through one it has freed. Its one read is taken to give the null link; what it gives after an allocation by another CPU in between is not modelled.
- Scheduling.FreedKeeps: an operation on a list of children is one step; FamilyLists has its single stores, for the list of init, the only one that several CPUs use. Scans of that list by wait while it changes are not modelled.
- Scheduling.NothingFreedIsTouched: structures that a step reaches through sibling links only are left to FamilyLists and FamilyOverlaps.
- FamilyLists.OvertakenAppend: whole operations between the stores of one append. An exact condition for several adoptions and reapings that overlap in any way is not given, only that not overlapping is enough.
- FamilyOverlaps.OverlapTouches: one adoption and one reaping.
- FamilyOverlaps.OverlapSpells: one adoption and one reaping.
- A switch of stacks is one step in the runs of ContextSwitch: between its instructions other CPUs use other stacks only.
- kmalloc, kfree, pmm_alloc and pmm_free take no lock in the source; the results for several CPUs assume that calls to them do not overlap.
- Scheduling.ExitKeeps: which child is adopted is left open; that all orphans are adopted is not claimed, since the loop of kernel/proc/process.c:82-88 stops after the first. A scan of wait that finds no zombie may be taken at any time.
- The copy of the user registers that fork makes for the child, with rax 0.
- Interrupts inside the kernel: kernel code runs with interrupts masked, apart from the idle loop, where an interrupt returns at once because the scheduler's own thread is current.
- The loop of kernel/proc/scheduler.c and its globals are steps over a value, because several CPUs take them in turn; the ready queue as it is linked in place is `ReadyQueue`.
- Tids, file tables, exit statuses and memory maps of processes are not part of the scheduler model.
- The SSE registers, which are saved elsewhere, and the flags register are not part of a context.
- Pipe and file lifetime (open, close, reference counts), reading with no writer left, and positions of 2^64 and more.
- ATA device registers, retries and faults; block numbers have 28 bits, so the drive has at most 2^28 blocks.
- HeapAllocator.Heap.Kfree: the caller frees a block in use; freeing any other address inside the heap overwrites data in the kernel too. kcalloc and krealloc are not modelled; krealloc reads past the old block when it grows one.
- fs_umount, path tokens, directories, the system call table, locks as memory words, boot, SMP start, device drivers and user programs.
