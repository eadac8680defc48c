# A verified model of the OSV teaching kernel

OSV is a small x86-64 kernel: four-level page tables with copy-on-write fork, a
buddy page allocator under a slab allocator, a write-ahead journal and a simple
file system, a K&R user heap, a radix tree, and the concurrent life of threads,
processes, shared regions and pipes. This project models the parts whose
correctness is not visible in any one function and proves what they promise.

The Dafny code follows the kernel's own shape. Code that updates fields, lists,
tables or arrays step by step is a class with methods and loops; each method is
proved against a step function or a relation on values, and what the kernel
promises is then proved of those. Code whose difficulty is interleaving is a
state machine: a `Step` type, a predicate for when a step may be taken, a
function for its effect, an invariant, and theorems over every `Trace`.

| component | modules | main results |
|---|---|---|
| buddy allocator | `PowersOfTwo`, `BuddyTiling`, `BuddySteps`, `BuddyBoot`, `BootBitmap`, `Buddy` | blocks tile the pages; the free blocks are the maximal aligned free runs; allocation fails exactly when no aligned run is free; freeing undoes allocating |
| copy-on-write memory | `CowState`, `CowSteps`, `CowOps`, `CowFork`, `Cow` | every run of fork, load, store and exit behaves as if fork copied every page, unless a frame comes free between the two attempts of a fault that found none; reference counts are exact |
| page tables | `PageWalk`, `PageTables`, `PageTeardown` | the four-level walk is a flat map; mapping sets exactly the asked translations, across the wrap at 2^64; teardown releases each page and frees each table once |
| journal | `JournalReplay`, `Journal` | after every single block write the disk replays to the state between two transactions |
| file system blocks | `SfsBlocks`, `SfsState`, `Sfs`, `SfsSpace`, `SfsInode`, `Mkfs`, `Mount` | files are independent byte arrays; each allocated bit has one owner; building fails exactly for want of blocks; the kernel finds in the blocks of a built image every inode and every file |
| user heap | `HeapList`, `Malloc` | address-ordered ring, no overlap, no adjacent free blocks, units conserved, one `morecore` at most |
| slabs | `SlabChain`, `SlabState`, `Slab` | the index chain is exactly the free slots; objects never overlap; division recovers the slot |
| radix tree, page cache | `RadixNodes`, `RadixSteps`, `Radix`, `PageCache` | a finite map; growth is invisible; one key changes; the same page gets the same frame |
| scheduler | `Sched`, `Synch` | each thread in one place; no lost wakeup; no double cleanup |
| shared regions | `ShmState`, `Shm` | references counted in every interleaving; no use after free |
| processes | `ListRace`, `ProcState`, `ProcRuns`, `ProcRaces`, `Proc` | one parent each over every run, exactly unless two appends to init's list overlap; what an overlap loses is lost for good; wait returns the exit status once |
| pipe | `Pipe` | a queue of 512 bytes, across offset wrap-around |
| regions | `LinkedRing`, `RegionOrder`, `Regions` | well-formed, sorted and disjoint list; a gap is found exactly if one of the tried addresses has one |

`NatLists` holds lists of numbers without repetition, `Basics` what is left to share.

Conventions: page frames, page numbers, block numbers, heap addresses (in units
of one header), nodes and processes are natural numbers; machine words that can
wrap are written with an explicit `%`. Allocation that the kernel may be refused
is a pool that can be empty, an oracle of coming failures, or a parameter with
the environment's answer. Code under one lock is one step, except where code
without the lock can fall inside it. Each process has one thread.

## Model

| member | source | states |
|---|---|---|
| BuddyTiling.BuddyIsSibling | kernel/mm/pmem.c:448-467 | flipping the order bit of an aligned page number gives the other half of the aligned block one order up |
| BuddyTiling.BuddyIsHead | kernel/mm/pmem.c:469-503 | in a tiled memory the buddy that a merge looks at is the head of a block, so the order and count it reads there are never stale fields of an inner page |
| BuddyTiling.HeadsDisjoint | kernel/mm/pmem.c:542-617 | two different blocks, free or allocated, share no page |
| BuddyTiling.RunInsideBlock | kernel/mm/pmem.c:417-446 | an aligned run of free pages lies inside one free block, so free blocks are the maximal such runs |
| BuddyTiling.CanonicalForm | kernel/mm/pmem.c:469-503 | the set of free pages alone determines the set of free blocks |
| BuddyTiling.RunIffListed | kernel/mm/pmem.c:417-446 | there is an aligned free run of an order exactly when some list of that order or above is not empty |
| BuddyBoot.BootCanonical | kernel/mm/pmem.c:317-369 | cutting runs greedily at boot leaves no two free buddies of equal order |
| BootBitmap.FindRightIffPrefix | kernel/mm/pmem.c:279-296 | the index that the boot search returns for its first clear run is free exactly when the pages before the run are all taken |
| BootBitmap.FindWrongOnGap | kernel/mm/pmem.c:279-296 | with one clear page before a taken one the boot search returns an index whose range is not clear |
| BootBitmap.BootMap.constructor | kernel/mm/pmem.c:213-234 | a fresh bitmap is clear |
| BootBitmap.BootMap.Alloc | kernel/mm/pmem.c:237-252 | exactly the given range is set |
| BootBitmap.BootMap.Free | kernel/mm/pmem.c:254-277 | exactly the given range is cleared, and the searched prefix stays a bound of the set bits |
| BootBitmap.BootMap.Find | kernel/mm/pmem.c:279-296 | fails exactly when no clear run of that length exists; otherwise returns the number of set bits before the first one |
| Buddy.MinOrder | kernel/mm/pmem.c:404-415 | the least order whose blocks hold n pages |
| Buddy.GetMinPageOrder | kernel/mm/pmem.c:404-415 | the loop finds that order, or panics above 1024 pages |
| Buddy.GetMaxPageOrder | kernel/mm/pmem.c:387-402 | the largest order of an aligned block that starts here and ends in time |
| Buddy.Pmem.constructor | kernel/mm/pmem.c:317-369 | from any boot bitmap the pages are tiled, the free lists are canonical, and a page is free exactly if boot left it so |
| Buddy.Pmem.InsertRange | kernel/mm/pmem.c:515-530 | a maximal free run becomes canonical blocks |
| Buddy.Pmem.FindBuddy | kernel/mm/pmem.c:448-467 | the buddy by xor, if it is a page |
| Buddy.Pmem.FindFreeblock | kernel/mm/pmem.c:417-446 | finds a block of the order, splitting larger ones recursively; fails exactly when all lists from the order up are empty; the free pages stay the same |
| Buddy.Pmem.MergeBlock | kernel/mm/pmem.c:469-503 | merges until no buddy is mergeable, without changing which pages are free |
| Buddy.Pmem.Nalloc | kernel/mm/pmem.c:542-586 | allocates an aligned run that was wholly free and nothing else; fails exactly when none of the order exists |
| Buddy.Pmem.Nfree | kernel/mm/pmem.c:588-617 | exactly the block's pages become free and the lists are canonical again |
| Buddy.Pmem.IncRefcnt | kernel/mm/pmem.c:686-700 | one count changes, no block or free page does |
| Buddy.Pmem.DecRefcnt | kernel/mm/pmem.c:702-719 | the page is freed exactly when its last reference goes |
| Buddy.FreeAfterAlloc | kernel/mm/pmem.c:588-617 | freeing a block just allocated restores the same free blocks and the same allocated ones |
| Buddy.LiveBlocksDisjoint | kernel/mm/pmem.c:542-586 | allocated blocks are disjoint and hold no free page |
| Buddy.NeverNull | kernel/mm/pmem.c:542-586 | while page 0 is taken, no allocation returns physical address 0 |
| Cow.Machine.constructor | kernel/proc.c:366-450 | the first process, loaded into frames of its own, satisfies the invariant and sees its image |
| Cow.Machine.SetPerm | arch/x86_64/kernel/mm/vpmap.c:448-461 | the permission of the given pages changes, the frames and what any process sees do not |
| Cow.Machine.CowCopy | arch/x86_64/kernel/mm/vpmap.c:374-404 | every present page of the range is shared read-only with the copy and counted once more |
| Cow.Machine.Fork | kernel/mm/vm.c:126-156 | after sharing every region, both processes see exactly what duplicating every page would give |
| Cow.Machine.HandleCow | kernel/pgfault.c:116-151 | succeeds unless there is no entry or no frame; the page becomes writable and no process sees a change |
| Cow.Machine.SetupPage | kernel/pgfault.c:93-114 | a zero frame takes the place of whatever the entry named; for a page that was not mapped nobody sees a difference |
| Cow.Machine.GetPage | kernel/mm/pgcache.c:10-40 | the cached frame of the shared page, new and zero only if there was none |
| Cow.Machine.HandleShared | kernel/pgfault.c:153-179 | maps the one cached frame of the shared page and counts it |
| Cow.Machine.ClearPte | arch/x86_64/kernel/mm/vpmap.c:103-111 | the entry goes, its count drops, the frame is freed at zero |
| Cow.Machine.Exit | kernel/mm/vm.c:99-124 | a frame is freed exactly when only this process mapped it; the others see what they saw |
| Cow.Machine.SetupOrExit | kernel/pgfault.c:64-90 | the second attempt, with the frames that come free before it: the page is set up or the process is gone, and a page that was mapped is lost |
| Cow.Machine.HandlePageFault | kernel/pgfault.c:33-91 | with any frames that other CPUs release between its two attempts: the process survives exactly if the access is legal and a frame is there in time, and nothing visible changed exactly if it is not the case that the copy found no frame and the second attempt found one |
| Cow.SetupLoses | kernel/pgfault.c:93-114 | a page set up over a mapped one reads as zeros, and its frame keeps a reference that no entry holds |
| Cow.LostPageExample | kernel/pgfault.c:64-90 | a forked heap page that holds 7 reads 0 after a store fault during which a frame comes free |
| Cow.Machine.Load | kernel/pgfault.c:33-91 | a load returns the byte that the copying machine holds, and 0 from a page that nobody has touched; it ends the process exactly if the page is not there and the handler refuses the fault |
| Cow.Machine.StoreByte | kernel/pgfault.c:33-91 | exactly if its page is not lost in the fault: the byte is there, every other byte of the page reads as before, whoever shares the page sees the same, and nothing else changes |
| Cow.Machine.StoreThenLoad | kernel/pgfault.c:33-91 | a load of the address just stored to gives the byte stored, exactly if the store is allowed and loses no page |
| Cow.StoreSeen | kernel/pgfault.c:116-151 | the same of the copying machine, byte by byte |
| Cow.UntouchedZero | kernel/pgfault.c:93-114 | a stack, heap or shared page that nobody has touched has 4096 zeros |
| Cow.ForkSeen | kernel/mm/vm.c:126-156 | in the copying machine a child sees what its parent saw, and nobody else sees a difference |
| Cow.ExitSeen | kernel/mm/vm.c:99-124 | in the copying machine an exit takes the process away, and nobody else sees a difference |
| Cow.Machine.Perform | kernel/pgfault.c:33-91 | each event has the copying machine's outcome unless a page is lost; a page is lost, and a legal access starves its process, exactly under conditions on the state before the event; an event takes one frame at most |
| Cow.Machine.Run | kernel/pgfault.c:33-91 | over every run of fork, load, store and exit: the copying machine's outcomes up to the first event that loses a page; at each event a process starves exactly if its access is legal, faults, and finds no frame in either attempt; with a free frame per event the answers and the end are exactly those of the copying machine |
| Cow.ExactRun | kernel/pgfault.c:33-91 | a run in which nobody starves is the run of the copying machine |
| Cow.EnoughFrames | kernel/mm/pmem.c:542-586 | with as many free frames as events, nobody starves |
| Cow.StoreIsolated | arch/x86_64/kernel/mm/vpmap.c:374-404 | a store is seen by no other process, except through the same page of a shared region |
| Cow.CountsExact | kernel/mm/pmem.c:686-719 | a private frame's count is its number of present entries, and a writable private entry is the only one |
| CowFork.ForkRefines | kernel/mm/vm.c:466-499 | sharing all present private frames yields the eagerly copied view |
| CowOps.ClearFreesLast | kernel/mm/pmem.c:702-719 | clearing an entry frees the frame exactly when it was the last mapping |
| CowOps.StoreRefines | kernel/pgfault.c:116-151 | a store through a sole writable entry, or a shared one, is a store in the copying machine |
| PageWalk.WalkIsHardware | arch/x86_64/kernel/mm/vpmap.c:57-101 | the walk picks its entries by bits 47-39, 38-30, 29-21 and 20-12 of the address, as the processor does, and the upper entries take no right away |
| PageWalk.SetLeafFlat | arch/x86_64/kernel/mm/vpmap.c:113-134 | writing a leaf entry changes one translation of one address space, and for kernel pages the same one of every space |
| PageWalk.AddTableFlat | arch/x86_64/kernel/mm/vpmap.c:57-101 | linking a new empty table changes no translation |
| PageWalk.AddRootFlat | arch/x86_64/kernel/mm/vpmap.c:260-284 | a new root translates the kernel's pages and nothing else |
| PageTables.PageTables.constructor | arch/x86_64/kernel/mm/vpmap.c:240-245 | the kernel's empty root satisfies the invariant and translates nothing |
| PageTables.PageTables.Boot | arch/x86_64/kernel/mm/vpmap.c:214-257 | the kernel translates its mapped ranges and nothing else, later ones over earlier ones; a failure is for want of memory |
| PageTables.UserOnly | arch/x86_64/kernel/mm/vpmap.c:362-372 | every root but the kernel's shares the kernel's entry, so it owns no table under it |
| PageTables.PageTables.FindPte | arch/x86_64/kernel/mm/vpmap.c:57-101 | returns the leaf table the walk ends in, creating tables on demand, invisibly; fails only without memory |
| PageTables.PageTables.MapPages | arch/x86_64/kernel/mm/vpmap.c:113-134 | sets exactly the n requested translations with the given permission and no other, also when the range ends at 2^64; on failure a prefix of them |
| PageTables.PageTables.LookupVaddr | arch/x86_64/kernel/mm/vpmap.c:406-427 | the frame that the processor's walk ends in, with the page offset |
| PageTables.PageTables.MapThenLookup | arch/x86_64/kernel/mm/vpmap.c:113-134 | every address of a mapped range of pages is looked up at its own distance from the start of the frames, and the processor grants exactly the given rights |
| PageTables.PageTables.Create | arch/x86_64/kernel/mm/vpmap.c:260-372 | a new address space with the kernel's translations, from the last 2^39 bytes on, and no others; the other spaces are unchanged |
| PageTables.PageTables.UnmapPd | arch/x86_64/kernel/mm/vpmap.c:172-190 | every leaf table below is cleared and freed once and its present pages are released in order |
| PageTables.PageTables.UnmapPdpt | arch/x86_64/kernel/mm/vpmap.c:156-170 | the same one level up |
| PageTables.PageTables.UnmapPages | arch/x86_64/kernel/mm/vpmap.c:137-154 | the same over the 511 user entries of the root |
| PageTables.PageTables.Destroy | arch/x86_64/kernel/mm/vpmap.c:318-330 | for any root but the kernel's: each present user page is released once, each table of the root is freed once, no other root notices |
| PageTeardown.DropsExact | arch/x86_64/kernel/mm/vpmap.c:103-111 | the released pages are exactly the present ones, once each, with their own frames |
| JournalReplay.LoggedRecovers | kernel/fs/jbd.c:147-165 | once the header names a full log, replay gives the whole new state however many homes are already rewritten |
| JournalReplay.CleanRecovers | kernel/fs/jbd.c:167-172 | with an empty header, replay leaves the homes alone |
| JournalReplay.HeaderCommits | kernel/fs/jbd.c:126-145 | over logged data and map, the header write is the commit point |
| Journal.Journal.PutBlk | kernel/fs/jbd.c:112-121 | a block write reaches the disk whole and is recorded, or fails and leaves the block locked |
| Journal.Journal.WriteJournalBlks | kernel/fs/jbd.c:83-124 | data and map are logged without changing what recovers; 128 blocks fail the assertion |
| Journal.Journal.WriteHeader | kernel/fs/jbd.c:126-145 | commits the listed blocks, or erases when there are none |
| Journal.Journal.ApplyJournal | kernel/fs/jbd.c:147-165 | every home is rewritten while the disk keeps recovering to the new state |
| Journal.Journal.EraseJournal | kernel/fs/jbd.c:167-172 | the list is empty and the header is cleared with the homes in the new state |
| Journal.Journal.Commit | kernel/fs/jbd.c:56-81 | moves to the new state, or fails in a phase from which a retry can go on |
| Journal.Journal.BeginTxn | kernel/fs/jbd.c:205-218 | a second transaction waits |
| Journal.Journal.WriteBlk | kernel/fs/jbd.c:240-264 | records each block once, panics at the 129th |
| Journal.Journal.EndTxn | kernel/fs/jbd.c:220-238 | the recorded blocks are committed together or not at all; it panics exactly at 128 blocks or out of turn; it hangs only with a lock that a failed write kept |
| Journal.StoreLast | kernel/fs/jbd.c:205-236 | what a transaction means: the last write to a block is what it holds, and other blocks keep their contents |
| Journal.Journal.RunTxn | kernel/fs/jbd.c:205-264 | one transaction means its writes in order, all or none; it panics exactly if it writes 128 different blocks or more |
| Journal.Journal.Run | kernel/fs/jbd.c:56-172 | after every single write of every run the disk replays to the state between two transactions, and never to an earlier one than before; if no allocation fails it ends well exactly if each transaction writes fewer than 128 blocks |
| SfsBlocks.BlockBitSet | kernel/fs/sfs/sfs.c:302-335 | setting or clearing a bitmap bit changes that bit only |
| SfsBlocks.WordOfSetWord | kernel/fs/sfs/sfs.c:781-783 | storing a block number in an indirect block changes that entry only |
| SfsState.AllocKeeps | kernel/fs/sfs/sfs.c:495-530 | allocating an unused block keeps every slot and leaves one block without an owner |
| SfsState.LinkAddrKeeps | kernel/fs/sfs/sfs.c:733-741 | linking a fresh block into the inode restores one owner per allocated bit |
| SfsState.LinkEntryKeeps | kernel/fs/sfs/sfs.c:779-784 | linking it into an indirect block does too, and moves no other entry |
| SfsState.PutView | kernel/fs/sfs/sfs.c:849-851 | rewriting a data block changes the bytes of that block of that file only |
| SfsState.FileBytes | kernel/fs/sfs/sfs.c:706-787 | byte p of a file is found through twelve direct addresses, or in one of two blocks of 128 little-endian addresses |
| SfsState.UsedDigit | kernel/fs/sfs/sfs.c:302-335 | a data block is used exactly if its bit, lowest first, is set in the bitmap |
| Sfs.FindFreeBit | kernel/fs/sfs/sfs.c:302-322 | the first clear bit, or none |
| Sfs.Sfs.AllocDataBlock | kernel/fs/sfs/sfs.c:495-530 | the first free block in reach of the bitmap search, zeroed; without memory the bitmap is as before; no space means every bit in reach is set |
| Sfs.Sfs.FreeDataBlock | kernel/fs/sfs/sfs.c:532-547 | clears that block's bit and no other; below the data area it panics |
| Sfs.Sfs.GetDataBlock | kernel/fs/sfs/sfs.c:707-810 | the block for an offset; every file keeps its bytes except that a new block is zero; errors say why |
| Sfs.Sfs.ReadData | kernel/fs/sfs/sfs.c:812-831 | the file's bytes up to the count, the end or a hole; changes nothing |
| Sfs.Sfs.WriteData | kernel/fs/sfs/sfs.c:833-862 | replaces exactly the returned number of bytes in that file; short only without memory or space; panics only past the largest size |
| Sfs.Sfs.Read | kernel/fs/sfs/sfs.c:1189-1200 | in a file without holes, all that is there up to the count |
| Sfs.Sfs.Write | kernel/fs/sfs/sfs.c:1202-1213 | a write within the file makes no hole, and all files are the plain arrays with that one overwritten |
| Sfs.Sfs.WriteThenRead | kernel/fs/sfs/sfs.c:812-862 | a read returns what was written, which is everything unless no block is left |
| Sfs.Sfs.Run | kernel/fs/sfs/sfs.c:1189-1213 | over every run of reads and writes on open files the file system acts as plain byte arrays with positions: if no memory fails, reads return all there is and writes store all or leave no block free; while a block is left, the answers and the files are exactly those of the arrays |
| Sfs.PlainExact | kernel/fs/sfs/sfs.c:1189-1213 | a run without failing memory that ends with a block left is the run of plain arrays |
| Sfs.FullKept | kernel/fs/sfs/sfs.c:833-862 | no write gives a block up, so a full device stays full |
| SfsSpace.SlotCount | kernel/fs/sfs/sfs.c:707-810 | a file with d data blocks takes up d blocks and one indirect block per started 128 beyond the twelfth |
| SfsSpace.AllSlotCount | kernel/fs/sfs/sfs.c:707-810 | files of given sizes take up the sum of that |
| SfsSpace.StuckDemand | tools/mkfs.c:196-219 | if the next byte finds no block, then files that long need more blocks than there are |
| SfsSpace.SolidDemand | tools/mkfs.c:156-194 | files without holes need no more blocks than there are |
| Mkfs.Image.constructor | tools/mkfs.c:252-285 | a zeroed image with empty inodes satisfies the kernel's invariant; bitmap and data are where the kernel looks for them |
| Mkfs.Image.AllocDataBlock | tools/mkfs.c:196-219 | an unused block, marked and zeroed; gives up only when all are used |
| Mkfs.Image.GetDataBlock | tools/mkfs.c:156-194 | the same addressing as the kernel's |
| Mkfs.Image.InodeAppend | tools/mkfs.c:139-154 | the bytes go to the end of that file and no other changes; gives up only at the size limit, or at a byte that needs a block when none is left |
| SfsInode.DecodeEncode | include/kernel/sfs.h:54-60 | the 64-byte record gives back every field of the inode |
| SfsInode.SlotsApart | kernel/fs/sfs/sfs.c:288-300 | records of two inodes in one block do not overlap |
| SfsInode.WordOfPutWords | kernel/fs/sfs/sfs.c:1030-1036 | writing a record changes its own words of the block only |
| SfsInode.ReadWritten | kernel/fs/sfs/sfs.c:990-1043 | reading an inode gives what was last written to it, whatever was written to others |
| SfsInode.RecordBytes | include/kernel/sfs.h:54-60 | an inode is 64 bytes at its place from block 4 on: type, mode, links, size and addresses, little-endian |
| Mount.SameFiles | tools/mkfs.c:129-137 | blocks before the bitmap can change under the files: ownership and every file stay |
| Mount.RecordOk | tools/mkfs.c:168-182 | each address of a file fits the 32 bits of its record |
| Mount.WriteOne | tools/mkfs.c:129-137 | the inode is in the table with its type, one link and no mode, and no other inode and no file changed |
| Mount.WrittenKept | tools/mkfs.c:139-154 | an append leaves the records of all other files as they are in memory |
| Mount.Build | tools/mkfs.c:287-319 | over any sequence of appends and inode writes each file is the concatenation of its own appends, and each inode written since its last append is in the table; it gives up exactly if a file is too long or the files need more blocks than there are |
| Mkfs.BuiltFits | tools/mkfs.c:156-219 | what was built is not too long and needs no more blocks than there are |
| Mkfs.StoppedDemand | tools/mkfs.c:196-219 | an append that stops for want of a block stops on files that need more blocks than there are |
| Mount.LoadsSame | kernel/fs/sfs/sfs.c:990-1015 | the kernel reads from the table exactly the inodes that the builder had |
| Mount.ReadBack | kernel/fs/sfs/sfs.c:812-831 | with nothing but the blocks the kernel reads every file of a built image |
| Mount.MountAndRead | kernel/fs/sfs/sfs.c:812-831 | for any interleaved appends and inode writes by the builder that leave each inode written, the kernel reads from each file exactly the bytes appended to it; this fails exactly if a file is too long or the files need more blocks than there are |
| Mount.MountAndAlloc | kernel/fs/sfs/sfs.c:495-530 | on a built image the kernel allocates exactly if a block is unused, and none that the builder used |
| Malloc.NUnits | lib/malloc.c:78-78 | the fewest units of 16 bytes that hold the request and one header |
| Malloc.MoreUnits | lib/malloc.c:59-61 | the asked units, or 4096 if fewer |
| Malloc.Allocator.FindPlace | lib/malloc.c:30-34 | the loop ends, at the free block below the given one whose next is above it |
| Malloc.Allocator.Free | lib/malloc.c:24-51 | the block is no longer live and lies in one free block; the ring stays ordered, disjoint and without neighbours that touch |
| Malloc.Allocator.Morecore | lib/malloc.c:53-70 | fresh units join the free list; a refusal changes nothing |
| Malloc.Allocator.Malloc | lib/malloc.c:72-100 | a new live block of the fewest units that hold the request, disjoint from all others; grows at most once, by 4096 units or more, and only if no free block has room for that many bytes; null only if the kernel refuses |
| HeapList.UnitsConserved | lib/malloc.c:24-100 | the sizes of free and live blocks add up to the units obtained |
| HeapList.InsertKeeps | lib/malloc.c:40-48 | putting a block in its place keeps the ring ordered |
| HeapList.MergeKeeps | lib/malloc.c:36-46 | absorbing the adjacent next block keeps all but the boundary |
| HeapList.CarveKeeps | lib/malloc.c:88-92 | handing out the upper end of a block keeps the ring and overlaps nothing |
| SlabChain.SlabFits | kernel/mm/kmalloc.c:76-84 | at least 128 objects and as many as fit, in the fewest pages, after 40 bytes of header and 4 for each |
| SlabChain.FreshChain | kernel/mm/kmalloc.c:101-105 | the initial index array chains every slot |
| SlabState.ObjectsApart | kernel/mm/kmalloc.c:183-220 | live objects never overlap |
| SlabState.Inside | kernel/mm/kmalloc.c:81-90 | an object lies within its slab's pages, past header and index array |
| SlabState.FoundBack | kernel/mm/kmalloc.c:235-244 | the page and a division lead from an object to its slab and slot |
| SlabState.TakeKeeps | kernel/mm/kmalloc.c:202-212 | taking the head of the chain keeps chain, lists and live slots in step |
| SlabState.PutKeeps | kernel/mm/kmalloc.c:241-252 | so does putting a slot back |
| Slab.Cache.SlabCreate | kernel/mm/kmalloc.c:63-111 | a new slab of that size is all free and on the free list |
| Slab.Cache.Alloc | kernel/mm/kmalloc.c:183-220 | a slot that was not live; null only if every slot is live and there are no pages |
| Slab.Cache.Free | kernel/mm/kmalloc.c:222-254 | exactly that slot is free again |
| RadixSteps.NewRootValue | kernel/radix_tree.c:105-122 | a new level preserves every lookup |
| RadixSteps.NewChildLeaf | kernel/radix_tree.c:95-99 | a new inner node is invisible to lookups |
| RadixSteps.SlotValue | kernel/radix_tree.c:124-140 | setting or clearing a leaf slot changes one key |
| RadixSteps.DropKeeps | kernel/radix_tree.c:225-227 | freeing an empty node keeps counts and parent links exact but for the slot it hung on |
| RadixSteps.EmptyRoot | kernel/radix_tree.c:232-236 | an empty root has nothing under it, so the tree can be reset |
| Radix.RadixTree.FindParent | kernel/radix_tree.c:86-103 | the node whose slot holds the leaf; on demand creates the path, invisibly |
| Radix.RadixTree.Insert | kernel/radix_tree.c:179-200 | a new key gets the leaf and no other changes; on error none changes; never more than five levels |
| Radix.RadixTree.Lookup | kernel/radix_tree.c:165-177 | the map's value |
| Radix.RadixTree.Remove | kernel/radix_tree.c:202-238 | one key is removed and empty nodes are pruned; out of range it acts on the index without its upper digits |
| Radix.RemoveExact | kernel/radix_tree.c:202-216 | removal leaves all other keys alone exactly if the index is in range or nothing is at the reduced index |
| Radix.RemoveBeyondExample | kernel/radix_tree.c:202-216 | in a tree of one level with a leaf at 1, after the removal of 65, which has no leaf, there is none at 1 |
| PageCache.Store.GetPage | kernel/mm/pgcache.c:10-40 | the page's frame, stable once cached; a new one is taken from the free frames; on failure it goes back |
| PageCache.FaultTwice | kernel/pgfault.c:153-179 | two faults get the same frame exactly if they are on the same page |
| Sched.StepKeeps | kernel/sched.c:52-113 | every step of every thread keeps the invariant |
| Sched.Placement | kernel/sched.c:62-88 | in every reachable state a thread that is not idle is in exactly one of: running, the ready queue, one waiter list, a signaller's hands, ended |
| Sched.LockPasses | kernel/sched.c:78-80 | over every run a lock goes from nobody to the thread that takes it, stays with it, and is free again at its unlock or when it goes to sleep on the condition |
| Sched.SleeperFreesLock | kernel/sched.c:78-80 | a thread asleep on a condition does not hold its lock: a running thread can take it unless another has it |
| Sched.FirstInFirstOut | kernel/sched.c:52-113 | the ready queue and every waiter list are left at the front and joined at the end |
| Sched.ReadyAfterSwitch | kernel/synch.c:141-155 | a signalled waiter is made ready only after it has been switched out, and then stands in the queue once |
| Sched.PickedReady | kernel/sched.c:91-113 | the thread a CPU picks is READY, on no CPU and not the current one |
| Sched.LifeCycle | kernel/synch.c:123-155 | a waiter leaves its list only into a signaller's hands, from there only to the ready queue, from there only onto a CPU |
| Sched.CleanedOnce | kernel/thread.c:85-93 | each cleanup is of an ended thread off every CPU, not cleaned up before and unknown after |
| Synch.Kernel.CondvarWait | kernel/synch.c:123-137 | the waiter joins the list while it holds the lock, which is the enqueue step of the machine |
| Synch.Kernel.TakeSchedLock | kernel/sched.c:62-66 | sched_lock is taken before the condition's lock is given up |
| Synch.Kernel.ReleaseAndSleep | kernel/sched.c:78-81 | the lock is free, no other lock changes, and the thread sleeps, still under sched_lock |
| Synch.Kernel.SchedYield | kernel/sched.c:62-81 | goes on if nothing is ready; otherwise joins the queue unless it is this CPU's idle thread |
| Synch.Kernel.SchedExit | kernel/thread.c:78-83 | the thread is a zombie under sched_lock |
| Synch.Kernel.Switch | kernel/sched.c:91-113 | the head of the queue, or else the idle thread, takes the CPU; it was READY and neither assertion can fail |
| Synch.Kernel.AfterSwitch | kernel/sched.c:82-88 | sched_lock is released, and a thread to clean up is returned exactly if the one switched out had ended |
| Synch.Kernel.ThreadCleanup | kernel/thread.c:85-93 | the cleanup step of the machine |
| Synch.Kernel.CondvarSignal | kernel/synch.c:141-155 | with waiters, exactly the first becomes ready; without, nothing changes |
| Synch.Kernel.CondvarBroadcast | kernel/synch.c:157-169 | all waiters go to the end of the ready queue in their order, and no other list changes |
| Synch.Kernel.StartThread | kernel/sched.c:52-60 | a new thread becomes ready |
| Synch.SignalOnceKeeps | kernel/synch.c:141-155 | a signal made in one go is the machine's two steps in a row, so it keeps the invariant |
| Synch.OwnIdle | kernel/sched.c:74 | the comparison with this CPU's idle thread tells whether the thread is any idle thread |
| ShmState.StepKeeps | kernel/fs/shmms.c:132-419 | every critical section keeps the invariant |
| ShmState.RefsCounted | kernel/fs/shmms.c:231-276 | in every interleaving a count is the entries plus the unmappings in flight, and names are unique |
| ShmState.FreedUnmapped | kernel/fs/shmms.c:175-190 | a context goes only when unmapped with none in flight, and once |
| ShmState.OwnerKeeps | kernel/fs/shmms.c:402-419 | only the owner's unlock clears the lock |
| ShmState.UnlockFrees | kernel/fs/shmms.c:402-419 | after the unlock any thread that maps the context, blocked or not, gets the lock at its next try |
| ShmState.MapThenUnmap | kernel/fs/shmms.c:231-363 | unmapping undoes a mapping, but for a context that goes with its last reference |
| ShmState.CreateThenDestroy | kernel/fs/shmms.c:132-190 | destroying undoes a creation, but for the address used up |
| ShmState.ResumesOnLive | kernel/fs/shmms.c:385-400 | a thread blocked in lockRegion resumes on a context that is there and that it maps |
| ShmState.UnmapSafe | kernel/fs/shmms.c:345-363 | the second half of an unmapping finds its context there with its reference counted |
| Shm.Regions.GetContextByHandle | kernel/fs/shmms.c:64-96 | the context of that name, if asked only one that the caller maps |
| Shm.Regions.CreateSharedRegion | kernel/fs/shmms.c:132-159 | refuses a name in use |
| Shm.Regions.DestroySharedRegion | kernel/fs/shmms.c:161-190 | removes exactly an unmapped context, persistent or not |
| Shm.Regions.CreateMapping | kernel/fs/shmms.c:278-296 | no such name is an error; otherwise the context of that name gets the mapping, or there is no memory |
| Shm.Regions.AddMapping | kernel/fs/shmms.c:231-276 | adds an entry for that space and range and a reference together |
| Shm.Regions.UnmapFirst | kernel/fs/shmms.c:298-343 | removes that space's entry that covers the address, and keeps its reference |
| Shm.Regions.UnmapSecond | kernel/fs/shmms.c:345-363 | gives up the reference, and the context with it when last, not persistent and exiting |
| Shm.Regions.LockRegion | kernel/fs/shmms.c:385-400 | succeeds exactly if the lock is free or one's own, and then owns it; otherwise waits and changes nothing |
| Shm.Regions.ResumeLock | kernel/fs/shmms.c:385-400 | a waiting thread that looks again does the same |
| Shm.Regions.UnlockRegion | kernel/fs/shmms.c:402-419 | only the owner succeeds, and then the lock is free |
| ListRace.GoodListed | kernel/list.c:21-33 | while no append has overtaken another, in the middle of one or not, a walk from the head meets exactly the nodes written and not taken out |
| ListRace.LoadGood | kernel/list.c:25-29 | reading the tail keeps that, and the tail read is stale exactly if another append is writing |
| ListRace.StoreGood | kernel/list.c:25-29 | so does the first write through a tail that is not stale |
| ListRace.SetPrevGood | kernel/list.c:30-30 | so does the write of the node's `prev`, from the tail read again |
| ListRace.SetNextGood | kernel/list.c:31-31 | so does the write of the node's `next` |
| ListRace.SetTailGood | kernel/list.c:32-32 | so does the write of the tail, which makes every tail read before stale |
| ListRace.TakeGood | kernel/list.c:56-62 | so does a removal with no append under way |
| ListRace.StaleStore | kernel/list.c:25-29 | the first write through a stale tail takes the node behind that tail off every walk |
| ListRace.LateLost | kernel/list.c:21-33 | an append whose tail is on no walk puts its node on none |
| ListRace.Dangling | kernel/list.c:56-62 | a removed node whose `prev` is not where the walk comes from is still met by the walk |
| ListRace.AllPlaced | kernel/list.c:21-33 | with no append under way every node has both pointers, even after overlaps |
| ProcState.StepKeeps | kernel/proc.c:188-363 | every step of fork, wait and exit keeps the invariant, with each append to init's list taken write by write |
| ProcRuns.StepGood | kernel/list.c:21-33 | a step keeps init's list right exactly if it is not a first write through a stale tail |
| ProcRuns.StaleIff | kernel/list.c:25-29 | a tail is stale exactly if another append was between its first and last write since the read |
| ProcRuns.OneParent | kernel/proc.c:228-228 | as long as no two appends to init's list have overlapped, every process not just being appended is on the list of exactly one process, which is alive; no record is freed twice and no list leads to a freed one |
| ProcRuns.OverlapLoses | kernel/proc.c:349-357 | the first overlap takes a process off every list |
| ProcRuns.AllListedIff | kernel/proc.c:349-357 | over a run every process has one parent throughout if and only if no two appends to init's list overlap |
| ProcRuns.LostForever | kernel/proc.c:286-294 | a process no pointer leads to and init does not wait for stays so, and its record is never freed |
| ProcRuns.LostFromOverlap | kernel/proc.c:228-228 | from the first overlap on, the same process is on no list and never freed |
| ProcRuns.OverlapBusy | kernel/proc.c:228-228 | one of two overlapping appends is that of a fork by init |
| ProcRuns.WaiterSafe | kernel/proc.c:301-303 | a sleeping waiter's child stays its own, overlaps or not |
| ProcRuns.WaitReturns | kernel/proc.c:304-310 | a wait returns what the child passed to exit, and the child is gone from the records |
| ProcRuns.Reapable | kernel/proc.c:301-303 | with the lock free, a child can be reaped exactly if it exited with a status other than the one that means alive |
| ProcRuns.Orphan | kernel/proc.c:349-357 | the first child of an exiting process is taken for init if it is alive and is freed if it has ended |
| ProcRuns.Orphans | kernel/proc.c:348-357 | by the end of an exit each child was taken at a step of that exit, and the append of each that was alive is written |
| ProcRuns.ExitPasses | kernel/proc.c:343-360 | the status passed to exit is the process's status once the exit is done; from its start to its end the process is off the table and has the lock |
| ProcRuns.NeverReaped | kernel/proc.c:301-303 | a process that exits with the status that means alive is never reaped or freed, in any run |
| ProcRaces.ExitAliveExample | kernel/proc.c:314-363 | a run in which a child exits so and init waits for it |
| ProcRaces.ForkedLost | kernel/list.c:29-32 | a run in which a hand-over falls inside the writes of init's append: the child that init forked is on no list |
| ProcRaces.LaterLost | kernel/list.c:29-32 | that run goes on, and the next child that init forks, with nothing in between, is on no list either |
| ProcRaces.HandedLost | kernel/list.c:25-29 | a run in which the hand-over falls between the read of the tail and the first write: the child handed over is on no list |
| ProcRaces.FreedLinked | kernel/list.c:56-62 | that run goes on, init reaps the child it forked, and init's list still leads to the freed record |
| Proc.Table.LoadTail | kernel/list.c:25-29 | the tail is read |
| Proc.Table.StoreNext | kernel/list.c:26-29 | the first write, through the tail that was read |
| Proc.Table.WritePrev | kernel/list.c:30-30 | the second, from the tail read again |
| Proc.Table.WriteNext | kernel/list.c:31-31 | the third |
| Proc.Table.WriteTail | kernel/list.c:32-32 | the last |
| Proc.Table.ListAppend | kernel/list.c:21-33 | with nothing in between the node is last in a list that stays right |
| Proc.Table.LinkOwn | kernel/proc.c:188-228 | a fork by another process than init, up to the caller's list |
| Proc.Table.BeginInit | kernel/proc.c:188-228 | a fork by init, up to the append |
| Proc.Table.StartChild | kernel/proc.c:235-240 | under the lock the child joins the table |
| Proc.Table.Fork | kernel/proc.c:188-247 | with nothing in between, the child is last in the caller's list and in the process table |
| Proc.Table.FindChild | kernel/proc.c:286-294 | the child of that pid, or for any child the last of the list |
| Proc.Table.FindKid | kernel/proc.c:286-294 | the same, following the pointers of init's list |
| Proc.Table.WaitFor | kernel/proc.c:276-299 | an error exactly if there is no such child |
| Proc.Table.Reap | kernel/proc.c:301-310 | sleeps on exactly while the child's status means alive, then returns the status it passed to exit |
| Proc.Table.Unlink | kernel/list.c:56-62 | the two pointer writes of a removal from init's list |
| Proc.Table.LeaveTable | kernel/proc.c:343-346 | the exiting process is off the table, under the lock |
| Proc.Table.TakeFirst | kernel/proc.c:349-356 | one child leaves the list, to be appended to init's or freed |
| Proc.Table.Finish | kernel/proc.c:358-360 | with no child left the status is set and the lock released |
| Proc.Table.Exit | kernel/proc.c:314-363 | with no fork by init in between, each child that was alive is on init's list and each that had ended is freed, before the status is set; init's exit fails the assertion |
| Pipe.WrapPlace | kernel/pipe.c:101-138 | because 512 divides 2^64 a wrapped offset falls on the same place in the ring |
| Pipe.Pipe.Read | kernel/pipe.c:82-114 | the oldest bytes; nothing for a positive count only when drained and without writers |
| Pipe.Pipe.Write | kernel/pipe.c:116-150 | as many bytes as fit, in order; sleeps exactly when full; fails exactly without readers, which a woken writer does not look for again |
| Pipe.Run | kernel/pipe.c:82-150 | over any interleaving of calls, sleeps and wake-ups every call is answered as a queue of 512 bytes answers it; the bytes returned are a prefix of the bytes taken |
| LinkedRing.InsertKeeps | kernel/list.c:35-53 | inserting a node keeps prev and next inverse around the ring |
| LinkedRing.RemoveKeeps | kernel/list.c:56-62 | so does removing one |
| RegionOrder.InsertOrdered | kernel/mm/vm.c:362-373 | with this comparator a region that overlaps none lands where the list stays sorted and disjoint, empty regions included |
| RegionOrder.SearchExact | kernel/mm/vm.c:375-402 | the search finds a gap that stays clear of the stack if and only if, from address 0 or from the rounded end of some region, the rounded size fits without wrap before the next region or below the stack bound |
| RegionOrder.PlainAnswer | kernel/mm/vm.c:375-402 | an answer whose rounded range does not wrap overlaps no region |
| RegionOrder.SearchRight | kernel/mm/vm.c:375-402 | a size that cannot wrap past the last region always gets a gap |
| RegionOrder.SearchWrapsExample | kernel/mm/vm.c:388-391 | a size near 2^64 is given an address whose range covers a region, although no candidate fits |
| Regions.AddrSpace.Append | kernel/list.c:21-33 | the node is last |
| Regions.AddrSpace.AppendOrdered | kernel/list.c:35-53 | the node is before the first that compares greater |
| Regions.AddrSpace.RemoveNode | kernel/list.c:56-62 | the node is out and the rest is unchanged |
| Regions.AddrSpace.Allocated | kernel/mm/vm.c:345-360 | whether some region overlaps the range |
| Regions.AddrSpace.FindFreeVaddr | kernel/mm/vm.c:375-402 | the loop computes the search; it finds a gap if and only if some candidate fits |
| Regions.ChecksExact | kernel/mm/vm.c:432-437 | which ranges pass the checks of a user space |
| Regions.ChecksPanic | kernel/mm/vm.c:432-433 | which ranges fail the assertions |
| Regions.AddrSpace.MapAt | kernel/mm/vm.c:420-463 | maps exactly if the permission is not the kernel's, the address is a page boundary, the pages end at 0xFFFFFFFF80000000 or below, the range meets no region and there is memory; panics exactly for an address inside a page or a range past 2^64; the list stays sorted and disjoint |
| Regions.AddrSpace.MapAnywhere | kernel/mm/vm.c:420-463 | maps the range at the address found and no other, under the same conditions; where some candidate fits it is not refused for overlap |
| Regions.AddrSpace.Unmap | kernel/mm/vm.c:404-418 | the region is gone and the others stay in order |

## Left out

- Partial-range `vpmap_unmap`: its limits do not track the range, so only the whole-range teardown is modelled.
- The bit layout of page-table entries, the TLB, dirty and accessed bits, and `vpmap_copy` (the eager copy that copy-on-write replaced).
- `memregion_extend` and the edit of the stack start, which test containment only; regions are fixed between map and unmap.
- Regions of the kernel's own address space: the region model takes user spaces, for which `find_free_vaddr` is meant.
- Cow.Machine.Fork: does not model running out of memory for page tables during fork, nor lookups that race with it.
- Cow.Machine.SetupPage: does not model running out of memory for page tables when the page is mapped.
- Cow.Machine.HandleShared: does not model running out of memory for page tables when the page is mapped.
- Cow.Machine.HandlePageFault: between its two attempts frames come free, and nothing else changes.
- Cow.Machine.Run: an access that a full memory denies ends the process; the copying machine has no such bound, so the run marks it as starved. The run ends at a lost page.
- Buddy.Pmem.Nfree: takes the head of an allocated block, as its callers do; freeing anything else is not modelled.
- Locks inside one operation: the page, cache and region locks are taken as making what they span one step.
- Proc.Table.FindKid: takes a list that no overlap has broken, and so do FindChild and WaitFor for init; on a broken one the step machine lets a wait take any child that a walk meets.
- Proc.Table.Exit: takes an exit with no fork by init under way; the step machine has the others.
- Freed records: after a list leads to one, a run goes on as if its memory were not used again.
- Journal.Journal.EndTxn: blocks released before a failed home write are taken to keep their contents in the buffer cache until the retry hangs.
- Recovery itself is a stub in the kernel; replay is a function read off the on-disk layout, and the kernel leaves journaling switched off for this file system.
- The inode bitmap and superblock as bytes; the kernel's own inode writes during a run, which keep the record in step with memory, are kept in memory only.
- Directory entries, path lookup, link and unlink, and `sfs_delete_inode`, whose inner loop is not bounded by the indirect block.
- Malloc.Allocator.Malloc: does not model request sizes whose unit computation wraps around 64 bits.
- The heap's static base block is taken to lie below all space obtained from the kernel, as the linker places it.
- Indices of 2^30 or more in the radix tree, whose shift overflows, and `radix_tree_empty` as an emptiness test.
- Sleeplocks, whose correctness adds nothing beyond the condition variable under them; the spinning of spinlocks and interrupt levels.
- Liveness: that a waiter is signalled, that an ended thread is cleaned up (a fresh thread skips it), that lockRegion gets the lock.
- `unmapAll`'s list removal without the table lock is taken as one step.
- Pipe.Pipe.SetEnds: sets the numbers of ends outright; which descriptor changes which number is not modelled.
- Process loading, stacks, files and names of processes; address reuse of freed records, nodes and contexts.
- Drivers, console, boot code, assembly and user programs.
