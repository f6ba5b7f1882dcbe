# xv6 in Dafny

A model of the hard parts of xv6 (x86) as changed for the course, with proofs: the crash-safe file system, paging
with the shared-page system of the third homework, the process table with sleep and wakeup, the user-level allocator,
the shell's parser and grep's matcher.  `HW3/xv6-src` overlays the base tree of `HW2/src`, so its `vm.c` and `proc.c` are
modelled together with `HW2/src/kalloc.c`.

Code that updates state in place is modelled by classes whose methods have the loops and branches of the source, each
proved against a function or a predicate on values; the lemmas about those values carry the theorems.  Protocols in
which several processes take part are step machines, and their theorems hold for every run.

| files | what they model |
|---|---|
| `Log.dfy`, `LogCode.dfy` | the redo log as a machine that may crash between any two block writes, and the code of log.c as runs of that machine |
| `FsModel.dfy`, `FsLayout.dfy`, `FsBytes.dfy`, `FsFormat.dfy`, `FsCode.dfy`, `InodeCode.dfy` | bitmap, inodes and files; how they are packed into blocks, word by word and byte by byte; the blank disk; the code of fs.c; the inode cache |
| `FileCode.dfy`, `CrashFs.dfy` | filewrite as a chain of transactions, and that chain run through the log, with crashes |
| `BufRing.dfy`, `Bio.dfy`, `BufLog.dfy` | the linked list of buffers; the buffer cache; how its dirty buffers implement the blocks that the log pins |
| `Paging.dfy`, `VmCode.dfy` | physical pages and two-level page tables; kalloc.c and vm.c |
| `Regions.dfy`, `SharedCode.dfy` | shared regions with reference counts; the system calls that make, map, drop, copy and free memory |
| `Procs.dfy`, `ProcCalls.dfy`, `ProcCode.dfy` | the process table as a step system; what its runs owe to the calls made; the loops over the table |
| `Pipe.dfy`, `PipeCalls.dfy`, `SleepLock.dfy` | pipes, what a run moves in terms of the calls made, and sleep locks, down to the two spinlocks that each of them uses |
| `Heap.dfy`, `Umalloc.dfy` | the circular free list; malloc and free |
| `Shell.dfy`, `ShellGrammar.dfy`, `ShellTrip.dfy`, `ShellCode.dfy` | the shell's parser as functions; the language it accepts, stated apart from it; the round trip; the parser as it runs |
| `Grep.dfy` | the matcher and the language that a pattern denotes |
| `Blocks.dfy`, `Common.dfy` | words and bytes of a block; shared definitions |

The disk is a sequence of blocks with atomic single-block writes, as `iderw` in `HW2/src/memide.c` provides.  A panic ends
the kernel: a method that may panic says so in its result and, unless its contract says otherwise, promises nothing
about the state after it.  Unsigned 32-bit arithmetic is written out where it matters: the pipe's counters, the header
and inode words, the overflow tests of readi and writei, and malloc's unit count.

Where the code does not do what its comments or its design promise, the exact condition is proved:

- The log is one block too small.  mkfs makes the log region LOGSIZE blocks (`HW2/src/mkfs.c:25`), one of which is the
  header, so the reservation of begin_op suffices only for a larger region: `LogMachine.ReservationSufficesIff`.
- A killed writer can leave a reader asleep on a full pipe: `Pipe.WakeupIsLost`; that is the only way to lose a wakeup:
  `Pipe.NoLostWakeupIff`.
- growproc treats a shrink to size 0 as a failure after it has freed the pages: `SharedCode.Kernel.Growproc`.
- malloc's unit count wraps for the last seven sizes, and sbrk takes the size as an int: `Heap.EnoughIff`,
  `Heap.RequestBySize`, `Umalloc.Allocator.Malloc`.
- allocSharedVM that runs out of memory can leave a region without a holder, or pages mapped that are in no region:
  `SharedCode.Kernel.AllocSharedVM`.
- kill does not look at the state of a slot, so a kill of pid 0 marks an unused one and the process made there is
  killed from the start: `ProcCalls.BornKilled`; exactly when that cannot happen: `ProcCalls.BornUnkilledIff`.

## Model

| member | source | states |
|---|---|---|
| `CrashFs.WriteSurvivesCrash` | HW2/src/file.c:117-156 | the chunk transactions of a write, with every log_write that the code makes in each of them, can be run through the log; a crash at any step, followed by any number of crashes during recovery, leaves a disk that mounts as a file system in good order and holds a whole number of the chunks |
| `CrashFs.RecoveredFileSystem` | HW2/src/log.c:115-202 | over all interleavings and crashes: if the contents are a file system in good order whenever no operation is under way, then so is what recovery restores from any reachable state, and so is the disk once recovery is done |
| `CrashFs.RunTransactions` | HW2/src/log.c:125-233 | a list of transactions run one after the other ends with all of them on disk, and at every step on the way the durable contents are the store after a whole number of them |
| `CrashFs.Transaction` | HW2/src/log.c:125-233 | begin_op, any sequence of log_writes to at most MAXOPBLOCKS blocks, a block as often as the code changes it, end_op and commit take an idle log to an idle log; a crash at any step leaves the store from before or the store from after, never contents from in between |
| `CrashFs.CrashRecovery` | HW2/src/log.c:69-122 | from every state that satisfies the invariant, crash and recovery can run to completion and put exactly the durable contents on the home blocks |
| `CrashFs.RecoveryKeeps` | HW2/src/log.c:115-122 | recovery that is cut short by further crashes, any number of times, never changes what it will restore |
| `CrashFs.HomeDecides` | HW2/src/fs.c:31-39 | with the log region before the inodes, what a disk mounts as depends on its home blocks alone |
| `CrashFs.BlankBoots` | HW2/src/mkfs.c:92-117 | for every layout there is a formatted disk from which the log boots and which mounts, so the theorems about runs from boot speak of something |
| `LogMachine.CrashAtomicity` | HW2/src/log.c:69-202 | on every run, with operations interleaved and crashes anywhere, the disk stands for exactly the durable writes: all the writes of some finished operations and no write of any other |
| `LogMachine.Durability` | HW2/src/log.c:125-202 | no run loses or reorders a durable write, across any number of crashes |
| `LogMachine.IdleDiskIsCurrent` | HW2/src/log.c:192-202 | when no operation is active and no commit runs, every home block on disk holds the result of all writes so far |
| `LogMachine.RunKeeps` | HW2/src/log.c:69-233 | the log invariant holds in every state that a run reaches |
| `LogMachine.StepKeeps` | HW2/src/log.c:69-233 | each step of begin_op, log_write, end_op, commit, crash and recovery keeps the log invariant |
| `LogMachine.LogWriteKeeps` | HW2/src/log.c:213-233 | log_write keeps the invariant: the kernel sees the new contents, the disk still stands for the durable ones, and the listed blocks stay distinct |
| `LogMachine.WriteHeaderKeeps` | HW2/src/log.c:101-113 | the single header write turns all writes so far durable at once |
| `LogMachine.InstallBlockKeeps` | HW2/src/log.c:69-82 | copying one log block home keeps what the disk stands for |
| `LogMachine.ClearHeaderKeeps` | HW2/src/log.c:192-202 | erasing the header after installation keeps what the disk stands for |
| `LogMachine.CrashKeeps` | HW2/src/log.c:115-122 | losing all memory at any point keeps the invariant, with only the durable writes left |
| `LogMachine.ReservationSufficesIff` | HW2/src/log.c:125-141 | no run within quotas reaches the panic of log_write while an operation has quota left, if and only if the log region is larger than LOGSIZE |
| `LogMachine.RunReserved` | HW2/src/log.c:125-174 | on every run within quotas, listed blocks plus all unused quotas fit in LOGSIZE |
| `LogMachine.HeadOfHeaded` | HW2/src/log.c:85-113 | read_head of what write_head stored gives back the block list |
| `LogCode.Log.constructor` | HW2/src/log.c:53-66 | boots from a disk whose log is empty |
| `LogCode.Log.Reboot` | HW2/src/log.c:53-66 | boots after a crash at the end of any earlier run: the disk is what the run left, with a committed header or without, and it stands for the same durable contents |
| `LogCode.Log.WriteLog` | HW2/src/log.c:177-190 | the loop performs the machine steps that copy every pinned block to its log block; nothing becomes durable or is lost meanwhile |
| `LogCode.Log.WriteHead` | HW2/src/log.c:101-113 | the header block encodes the in-memory list and no other block changes |
| `LogCode.Log.ReadHead` | HW2/src/log.c:85-96 | the in-memory list is the one that the header block encodes |
| `LogCode.Log.InstallTrans` | HW2/src/log.c:69-82 | the loop performs the machine steps that copy every logged block home and unpin it |
| `LogCode.Log.RecoverFromLog` | HW2/src/log.c:115-122 | afterwards every home block holds what the durable writes left there, and every disk image on the way has the same durable writes |
| `LogCode.Log.Commit` | HW2/src/log.c:192-202 | afterwards all writes are durable and on their home blocks; there is one point before which every disk image has the old durable writes and after which it has all the new ones |
| `LogCode.Log.BeginOp` | HW2/src/log.c:125-141 | an operation starts exactly when no commit runs and the worst case of all operations fits in the log; otherwise nothing changes |
| `LogCode.Log.LogWrite` | HW2/src/log.c:213-233 | panics exactly when the list is full or no operation is under way; otherwise the buffer is pinned with the new contents and its block is on the list once |
| `LogCode.Log.EndOp` | HW2/src/log.c:145-174 | the last operation to end commits: every write so far is durable and home, and no disk image on the way holds only a part of them; an earlier one writes nothing |
| `LogCode.TraceInv` | HW2/src/log.c:69-202 | every state in the history of a running log satisfies the invariant, so a crash there loses nothing durable |
| `FsModel.OwnershipMeans` | HW2/src/fs.c:56-95 | a bitmap bit is set exactly when the block is metadata or some inode slot refers to it, and no two slots, of one inode or of two, refer to the same block |
| `FsModel.BlankInv` | HW2/src/fs.c:56-78 | a file system without files whose bitmap marks the metadata satisfies the invariant |
| `FsModel.GrowOwns` | HW2/src/fs.c:372-400 | whatever bmap allocates, block, table or both, ownership stays exact |
| `FsModel.GrowMaps` | HW2/src/fs.c:372-400 | bmap leaves the other blocks of the file alone; asked for the first unmapped block it extends the mapped prefix by one, asked for a mapped one it allocates nothing |
| `FsModel.GrowOthers` | HW2/src/fs.c:372-400 | bmap changes no other file |
| `FsModel.WroteMeans` | HW2/src/fs.c:481-511 | every run of the write loop keeps ownership and all other files, and the file holds the splice of the bytes written so far |
| `FsModel.WriteEnds` | HW2/src/fs.c:481-511 | recording the new size after the loop restores the invariant, with the blocks mapped exactly below the size |
| `FsModel.TruncatedInv` | HW2/src/fs.c:407-435 | after truncation the invariant holds with exactly the blocks of that inode released, the file is empty and all others are the same |
| `FsModel.FreeOne` | HW2/src/fs.c:81-95 | the block that truncation frees next is still marked in use, so the panic for freeing a free block cannot happen |
| `FsModel.OthersKeepBytes` | HW2/src/fs.c:481-511 | a file that an operation leaves alone has the same bytes afterwards |
| `FsModel.ContentsUnique` | HW2/src/fs.c:452-476 | the contents of a file are determined by the disk |
| `FsLayout.UsedBitOfPut` | HW2/src/fs.c:56-95 | setting or clearing the bit of one block in the bitmap changes the bit of that block and of no other |
| `FsLayout.DiskInodeOfPut` | HW2/src/fs.c:220-236 | storing one packed inode changes that inode on disk and no other in the block |
| `FsLayout.InodeRoundTrip` | HW2/src/fs.c:220-236 | an inode packed into words and unpacked is the same inode |
| `FsBytes.InodeBytes` | HW2/src/fs.h:29-36 | the inode that the model decodes is the dinode read byte by byte: four 16-bit fields, then the size and the addresses, each in little-endian order at its offset in its block |
| `FsBytes.BitmapBytes` | HW2/src/fs.c:56-95 | a block is in use exactly if bit b % 8 of byte b % BPB / 8 of its bitmap block is set |
| `FsLayout.SyncedMounts` | HW2/src/fs.c:220-236 | when every cached inode agrees with its disk copy, the disk alone shows the same file system |
| `FsFormat.BlankMounts` | HW2/src/mkfs.c:92-117 | on every layout a disk of zeros whose bitmap marks the metadata mounts as a file system in good order without files |
| `FsCode.FileSystem.constructor` | HW2/src/fs.c:171-186 | mounting a disk in good order gives a valid file system |
| `FsCode.FileSystem.Bzero` | HW2/src/fs.c:42-51 | exactly that block becomes zeros, and exactly that block is logged |
| `FsCode.FileSystem.Balloc` | HW2/src/fs.c:56-78 | takes the lowest free block, marks and zeroes it, and logs just its bitmap block and itself; panics exactly when every block is in use |
| `FsCode.FileSystem.Bfree` | HW2/src/fs.c:81-95 | clears the bit of one block; panics exactly when it was clear |
| `FsCode.FileSystem.Bmap` | HW2/src/fs.c:372-400 | returns the address of the block, allocating the block, or table and block, only where there is none; a mapped block is found without any change; panics only past the largest file or on a full disk |
| `FsCode.FileSystem.Iupdate` | HW2/src/fs.c:220-236 | afterwards every cached inode agrees with its disk copy |
| `FsCode.FileSystem.Itrunc` | HW2/src/fs.c:407-438 | exactly the blocks of the inode become free; size and every address are 0, the file has no bytes and the other fields of the inode stay; every other file keeps its bytes |
| `FsCode.FileSystem.Readi` | HW2/src/fs.c:452-476 | returns the slice of the contents clipped at the size, or fails exactly when the offset is past the end or wraps; changes nothing |
| `FsCode.FileSystem.Writei` | HW2/src/fs.c:481-511 | splices the bytes in at the offset and extends the size; fails exactly when the offset is past the end or the file would be too large; other files keep their bytes; disk and cached inodes agree; with one bitmap block at most three blocks beside the data are logged |
| `InodeCode.Inodes.constructor` | HW2/src/fs.c:171-186 | the inode cache starts with every entry unreferenced and keeps its invariant |
| `InodeCode.Inodes.Iget` | HW2/src/fs.c:241-272 | for any device and inode number, returns the one referenced entry of the inode with its count raised, or an unreferenced entry; a referenced entry of another inode is never reused; panics exactly when there is neither |
| `InodeCode.Inodes.Ilock` | HW2/src/fs.c:287-312 | the inode is cached as the disk has it; panics exactly when the entry has no reference or the inode is free |
| `InodeCode.Inodes.Iput` | HW2/src/fs.c:331-352 | drops one reference; the inode and exactly its blocks are freed, and it is then an empty inode of type 0, if and only if that was the last reference to a valid inode without links |
| `InodeCode.Inodes.Ialloc` | HW2/src/fs.c:194-214 | takes the lowest free inode after inode 0 and returns a referenced entry; that inode has the type asked for, zeros in every other field and no bytes, in memory and as decoded from the disk; every other file keeps its bytes; exactly the block of the inode is logged |
| `InodeCode.Inodes.Claim` | HW2/src/fs.c:204-209 | a free inode becomes one of the type asked for with zeros in every other field, on disk too, and no other inode changes |
| `InodeCode.FreeNotCached` | HW2/src/fs.c:194-214 | a free inode is never in the cache, so ialloc cannot disturb a cached one |
| `FileCode.File.FileWrite` | HW2/src/file.c:117-156 | -1 for a file that is not writable and for a negative count, a device goes to its driver, all without a change; otherwise the chunks together are one write of all bytes, -1 exactly when not all of it fits, with the whole chunks that fit written; each chunk is a transaction that changes only blocks it logged, at most MAXOPBLOCKS of them on a disk with one bitmap block, and leaves a disk that mounts |
| `FileCode.ChunkTouches` | HW2/src/file.c:133-138 | a chunk touches at most four blocks, wherever it starts |
| `Bio.Cache.constructor` | HW2/src/bio.c:38-56 | all buffers are linked in one ring, the last one first |
| `Bio.Cache.Bget` | HW2/src/bio.c:61-93 | the block has at most one buffer; a cached block keeps its buffer; otherwise the least recently used buffer that is unreferenced and clean is given to it; panics exactly when there is none |
| `Bio.Cache.Bread` | HW2/src/bio.c:96-106 | returns the latest contents logged or written for the block |
| `Bio.Cache.Modify` | HW2/src/bio.c:8-17 | the holder of a buffer may change its contents; what other processes would read stays the latest logged or written |
| `Bio.Cache.LogWrite` | HW2/src/log.c:213-233 | pins the buffer, whose contents become the latest of the block |
| `Bio.Cache.Bwrite` | HW2/src/bio.c:109-116 | disk and latest contents of the block are those of the buffer |
| `Bio.Cache.Brelse` | HW2/src/bio.c:120-141 | drops a reference; with the last one the buffer moves to the front and the others keep their order, the ring staying a circular permutation of all buffers |
| `Bio.Recycle` | HW2/src/bio.c:61-93 | giving an unreferenced clean buffer to an uncached block loses no contents and keeps buffers unique |
| `Bio.RecentFirst` | HW2/src/bio.c:120-141 | over any run of releases, the list is in order of last use: a buffer comes before every one that lost its last reference earlier |
| `Bio.LeastRecentlyUsed` | HW2/src/bio.c:77-90 | of all buffers that may be recycled, the one that bget finds by going backwards from the end of the list lost its last reference the longest ago |
| `BufLog.LogsRefines` | HW2/src/log.c:213-233 | log_write on the buffer cache is the LogWrite step of the log machine: the block is pinned with the contents of its buffer and every other block is as it was |
| `BufLog.WritesRefines` | HW2/src/bio.c:109-116 | bwrite on the buffer cache is a write-through in the log machine: the block is on disk and no longer pinned |
| `BufLog.NeutralRefines` | HW2/src/bio.c:61-141 | bget, bread, brelse and changes to a held buffer leave the state of the log machine alone |
| `BufLog.BootsRefines` | HW2/src/log.c:115-122 | losing the buffers is the crash of the log machine |
| `BufLog.ReadsCurrent` | HW2/src/bio.c:96-106 | between commits, the latest contents of a home block in the buffer cache are the result of all the writes in the history of the log machine, which is what the file system has as its store |
| `BufLog.WriteLogTurn` | HW2/src/log.c:177-190 | one turn of write_log on buffers, from bread to brelse, performs the machine step; it cannot fail while two buffers can be recycled |
| `BufLog.InstallTurn` | HW2/src/log.c:69-82 | one turn of install_trans on buffers performs the machine step: the home block has the logged contents and is no longer pinned; it cannot fail while two buffers can be recycled |
| `BufLog.WriteHeadTurn` | HW2/src/log.c:101-113 | write_head on buffers writes the encoded list through to the header block, as both header steps of the machine do; fails exactly if the block has no buffer and none can be recycled |
| `BufLog.LogWriteTurn` | HW2/src/log.c:213-233 | log_write by the holder of a buffer performs the machine step with the contents of that buffer |
| `BufRing.Unlink` | HW2/src/bio.c:120-141 | joining the neighbours of an element takes exactly that element out of the ring, in both directions |
| `BufRing.PushFront` | HW2/src/bio.c:38-56 | linking an element in after the head puts it first and keeps the ring, in both directions |
| `VmCode.Machine.constructor` | HW2/src/kalloc.c:31-44 | before freerange every page above the kernel is allocated and unused |
| `VmCode.Machine.Freerange` | HW2/src/kalloc.c:46-53 | exactly the pages of the range join the free list |
| `VmCode.Machine.Kfree` | HW2/src/kalloc.c:59-77 | panics exactly if the address is not that of a page after the kernel; otherwise the page is filled with ones and goes to the head of the list linked through the free pages, which stays a list of exactly the free pages |
| `VmCode.Machine.Kalloc` | HW2/src/kalloc.c:82-95 | takes the head of the list; 0 exactly when there is no free page |
| `VmCode.Machine.Walk` | HW3/xv6-src/vm.c:40-58 | finds the table, or adds an empty one if asked, changing no address space; fails exactly when there is none and none may or can be made; takes a free page exactly when it adds a table; every directory entry in use is present, writable and for the user, as part of the invariant |
| `VmCode.Machine.GrowPage` | HW3/xv6-src/vm.c:219-232 | one turn of allocuvm: a new page with the given contents at the address, and no other entry changes; fails exactly if the page and the table that it lacks are more than the free pages |
| `VmCode.Machine.MapPage` | HW3/xv6-src/vm.c:63-81 | one turn of mappages: exactly one entry of one address space changes; panics exactly when it was present; fails exactly when its table is missing and no page is free |
| `VmCode.Machine.Mappages` | HW3/xv6-src/vm.c:63-81 | the entries of the range map consecutive pages, up to the turn that failed, and no other entry changes; it runs out of memory only if the range lacks more tables than pages are free, and otherwise takes exactly that many |
| `VmCode.Machine.Setupkvm` | HW3/xv6-src/vm.c:106-134 | a new address space with exactly the mappings of kmap, or 0 with the use and contents of every page as before; it succeeds if and only if 65 pages are free, and takes exactly these |
| `VmCode.Machine.Allocuvm` | HW3/xv6-src/vm.c:208-234 | grows by zeroed pages of its own below shaddr, all of which user code can then read and write through both levels of the tables; or fails with every address space and the use of every other page as before, exactly if fewer pages are free than the new pages and the tables they lack |
| `VmCode.Machine.Deallocuvm` | HW3/xv6-src/vm.c:240-262 | exactly the mapped user pages of the range are unmapped and become free, although whole directory entries are skipped; the loop ends |
| `VmCode.Machine.Freevm` | HW3/xv6-src/vm.c:266-279 | every page of the address space, user pages, tables and directory, is freed and no other |
| `VmCode.Machine.Copyuvm` | HW3/xv6-src/vm.c:294-322 | the new address space has its own copy of each page, with the same bytes and flags and the same accesses open to user code, and the kernel mappings; it takes exactly the copies and their tables, and without that many free pages nothing is lost; panics only if a page below the size is not mapped |
| `Paging.FreedExactly` | HW3/xv6-src/vm.c:240-262 | removing only user pages of a range while clearing all its entries frees exactly the pages that a scan page by page would |
| `Paging.StoreWalks` | HW3/xv6-src/vm.c:63-81 | a store through the two levels changes one entry of one address space and nothing else |
| `Paging.ReachIff` | HW3/xv6-src/vm.c:40-81 | what user code may read or write, by present, user and write bits of both levels, is decided by the page table entry alone: the directory entry never stands in the way |
| `Paging.ReachOwned` | HW3/xv6-src/vm.c:40-81 | user code reaches no kernel address, and only pages that belong to its address space or to a region |
| `Paging.KernelMeans` | HW3/xv6-src/vm.c:106-134 | the kernel part of a new address space, page by page: physical memory from KERNBASE on, the text and read-only data not writable, the devices at their own addresses, and none of it open to user code |
| `Paging.TableOwns` | HW3/xv6-src/vm.c:40-58 | a new page table keeps pages conserved and every address space the same |
| `Paging.UntabledMore` | HW3/xv6-src/vm.c:40-58 | mapping one page further down takes one page table more exactly if the table of that page is not there by then |
| `Paging.MapUserOwns` | HW3/xv6-src/vm.c:63-81 | mapping an unused page keeps free and owned pages a partition of memory |
| `Paging.CutOwns` | HW3/xv6-src/vm.c:240-262 | freeing a mapped user page keeps free and owned pages a partition of memory |
| `Paging.DropOwns` | HW3/xv6-src/vm.c:266-279 | giving up a directory without user pages keeps pages conserved |
| `Paging.FrameGone` | HW3/xv6-src/vm.c:294-322 | an address space that was made and given up again leaves the use and contents of every page as before |
| `Regions.Coherent` | HW3/xv6-src/vm.c:363-385 | two holders of a region translate the same offset to the same physical byte |
| `Regions.Separate` | HW3/xv6-src/vm.c:363-385 | the regions of a process do not overlap and lie between its own memory and KERNBASE |
| `Regions.ReachHeld` | HW3/xv6-src/vm.c:363-385 | a holder can read and write every page of its region |
| `Regions.ReachOnly` | HW3/xv6-src/vm.c:363-465 | user code reaches the own memory of its process below the size and the regions that the process holds, and nothing else |
| `Regions.Isolated` | HW3/xv6-src/vm.c:363-465 | two processes reach a common page only at addresses of a region that both hold |
| `Regions.GoodUpdate` | HW3/xv6-src/vm.c:363-465 | a change to one process and one region that keeps these two in order keeps the whole system in order |
| `Regions.AttachGood` | HW3/xv6-src/vm.c:387-416 | attaching a region, new or not, keeps counts, mappings and page ownership in order |
| `Regions.MakeFailed` | HW3/xv6-src/vm.c:396-406 | if the free pages do not suffice for a new region, the pages taken are lost and everything else stays in order |
| `Regions.StuckGood` | HW3/xv6-src/vm.c:372-377 | mapping that runs out of memory after k pages leaves the system in order if and only if k is 0 |
| `Regions.UnheldIsBad` | HW3/xv6-src/vm.c:396-415 | a valid region that nobody holds is not in order |
| `Regions.DetachGood` | HW3/xv6-src/vm.c:418-456 | detaching a region keeps counts, mappings and page ownership in order, and frees its pages only with the last holder |
| `Regions.NobodyMaps` | HW3/xv6-src/vm.c:418-456 | once the last holder has unmapped a region no address space maps any of its pages |
| `Regions.ReapPrivate` | HW3/xv6-src/vm.c:266-279 | a process without regions maps only pages of its own, so freeing its address space frees no page of a valid region |
| `Regions.EmptyIsBad` | HW3/xv6-src/proc.c:157-172 | a process whose size says it has memory but whose pages are gone is not in order |
| `SharedCode.Kernel.constructor` | HW3/xv6-src/proc.c:29-32 | at boot no process exists, no region is valid and the only address spaces are without user pages, as that of the scheduler is |
| `SharedCode.Kernel.MapPages` | HW3/xv6-src/vm.c:371-377 | runs out of memory exactly if the unmapped pages below shaddr lack more page tables than pages are free; otherwise panics exactly if there is no room above the memory of the process; otherwise the pages of the region are mapped downwards |
| `SharedCode.Kernel.MapSharedRegion` | HW3/xv6-src/vm.c:363-385 | a region that is held is returned without a change; otherwise its pages are mapped just below shaddr, which moves down, and one reference more is counted; says exactly when it runs out of memory or panics instead |
| `SharedCode.Kernel.AllocSharedVM` | HW3/xv6-src/vm.c:387-416 | refuses exactly a bad key, a bad count or a larger count than the region has; runs out of memory exactly if the pages of a new region and the page tables that the mapping lacks are more than the free pages; panics otherwise exactly if the region does not fit above the memory of the process; otherwise the caller holds the region, just below its old shaddr, at the address returned, and can read and write all of it, one reference more is counted unless it held it before, a new region is zeroed, no other process or region changes and the whole system is in order; when memory runs out, the system stays in order if and only if the pages of the new region ran out or an old region lacked its first table |
| `SharedCode.Kernel.DeallocProcSharedVM` | HW3/xv6-src/vm.c:418-456 | -1 exactly if the process does not hold the key; otherwise one reference less, and with the last one every page of the region is free |
| `SharedCode.Kernel.DeallocProcAllSharedVM` | HW3/xv6-src/vm.c:458-465 | afterwards the process holds no region and nothing else about it changed |
| `SharedCode.Kernel.Fork` | HW3/xv6-src/proc.c:177-217 | the child takes the first unused slot and has copies of the pages below the size, open to user code as those of the parent are, and no region; it fails exactly if no slot is unused or the free pages do not suffice for the stack, the copies and their tables, and then the use of every page is as before |
| `SharedCode.Kernel.Exit` | HW3/xv6-src/proc.c:222-261 | a process that ends keeps its regions and its address space until it is reaped |
| `SharedCode.Kernel.Reap` | HW3/xv6-src/proc.c:278-292 | the slot is unused, no page of the dead address space is in use and every other process is untouched |
| `SharedCode.Kernel.Userinit` | HW3/xv6-src/proc.c:121-153 | the first process has one page of its own, which holds the given program and which user code can read and write, and the system is in order; it panics exactly if fewer than 68 pages are free |
| `SharedCode.Kernel.Growproc` | HW3/xv6-src/proc.c:157-172 | new memory is zeroed, below shaddr and open to user code; growth fails exactly if it would reach shaddr or the free pages do not suffice for the new pages and their tables, and then changes no mapping; the state stays in order if and only if the new size is not 0 |
| `Procs.ParentsLive` | HW3/xv6-src/proc.c:222-261 | on every run, each live or zombie process but init has a parent that is alive |
| `Procs.NoWaitMissed` | HW3/xv6-src/proc.c:265-304 | on every run, no process is asleep in wait while a child of it is a zombie |
| `Procs.RunningMatchesCpus` | HW3/xv6-src/proc.c:314-345 | on every run, a process is running exactly if a CPU has it, and then exactly one |
| `Procs.ReapedOnce` | HW3/xv6-src/proc.c:265-304 | on every run, a pid exits at most once, is reaped at most once, and between the two is a zombie |
| `Procs.RunKeeps` | HW3/xv6-src/proc.c:177-473 | the invariant of the process table holds in every state that a run reaches |
| `Procs.StepCore` | HW3/xv6-src/proc.c:177-473 | every step keeps parents alive, tasks consistent, CPUs matched and waiters served |
| `Procs.StepPids` | HW3/xv6-src/proc.c:74-304 | every step keeps pids distinct and exited pids accounted for |
| `Procs.ExitIs` | HW3/xv6-src/proc.c:222-261 | exit passes the children to init, wakes the parent if it waits, and wakes init if it inherits a zombie |
| `ProcCode.Table.Wakeup1` | HW3/xv6-src/proc.c:439-445 | the loop makes exactly the sleepers on the channel runnable and leaves every other field and slot as it was |
| `ProcCode.Table.PassChildren` | HW3/xv6-src/proc.c:248-255 | the loop gives every child to init and wakes init exactly if one of them is a zombie |
| `ProcCode.Table.ScanChildren` | HW3/xv6-src/proc.c:271-299 | the scan finds the first zombie child, or reports correctly whether there is any child |
| `ProcCode.Table.FindUnused` | HW3/xv6-src/proc.c:78-87 | the scan finds the first unused slot: no slot before it is unused |
| `ProcCode.Table.Kill` | HW3/xv6-src/proc.c:457-473 | marks the first slot with the pid killed and makes it runnable if it sleeps, leaving every other field and slot as it was; fails, without a change, exactly if no slot has the pid; it is the kill step of the step system |
| `ProcCode.Table.Exit` | HW3/xv6-src/proc.c:243-261 | the code of exit under the lock has the effect that the step system gives it |
| `ProcCalls.KillIs` | HW3/xv6-src/proc.c:457-473 | after a kill step the first slot with the pid is marked and not asleep, and nothing else changed |
| `ProcCalls.KillMisses` | HW3/xv6-src/proc.c:457-473 | a kill of a pid that no slot has changes nothing |
| `ProcCalls.KilledExactly` | HW3/xv6-src/proc.c:265-473 | on every run, a slot is marked killed exactly if some kill found it and it has not been reaped since |
| `ProcCalls.NoKilledWaiter` | HW3/xv6-src/proc.c:265-304 | on every run, no process is asleep in wait after it was killed |
| `ProcCalls.SleepersExactly` | HW3/xv6-src/proc.c:400-473 | on every run, who is asleep, and on which channel, is exactly what the calls of sleep, wait, wakeup, exit and kill before it say |
| `ProcCalls.BornUnkilledIff` | HW3/xv6-src/proc.c:74-100 | no process is ever created with the mark of a kill meant for another, if and only if no kill of the run finds a slot that is unused or only half made |
| `ProcCalls.BornKilled` | HW3/xv6-src/proc.c:457-473 | a run from boot in which a kill of pid 0 marks an unused slot, and the process that fork makes there is killed from the start |
| `ProcCalls.ParentForked` | HW3/xv6-src/proc.c:177-261 | on every run, the parent of a process is the process that forked it, or init if that one has exited |
| `ProcCalls.WaitIs` | HW3/xv6-src/proc.c:265-304 | wait reaps the first zombie child, clears its slot and reports its pid; otherwise it gives up exactly if there is no child or the caller was killed; otherwise it sleeps on itself |
| `ProcCalls.Fork1Is` | HW3/xv6-src/proc.c:74-100 | allocproc takes the lowest unused slot and the next pid, and no other slot changes |
| `ProcCalls.Fork2Is` | HW3/xv6-src/proc.c:177-217 | the end of fork makes the new slot runnable with the caller as its parent, and no other slot changes |
| `ProcCalls.DispatchIs` | HW3/xv6-src/proc.c:314-345 | the scheduler runs a runnable process on an idle CPU: that process is running, that CPU has it, and nothing else changes |
| `Pipe.FirstInFirstOut` | HW2/src/pipe.c:78-121 | on every run, the bytes written are the bytes read followed by the bytes in the ring, at most PIPESIZE of them, also when the 32-bit counters wrap |
| `Pipe.ReadsInOrder` | HW2/src/pipe.c:100-121 | on every run, what the calls of piperead return, in the order in which they return, is the bytes written, in order and without gap: each call returns a contiguous piece of them, no longer than asked for |
| `Pipe.NoDeadlock` | HW2/src/pipe.c:59-121 | on every run, while some process is in a call and not asleep, some process can take its next step: the two spinlocks never block each other |
| `PipeCalls.WritesAccounted` | HW2/src/pipe.c:78-98 | on every run, the bytes written are an interleaving of prefixes of the buffers passed to pipewrite, one for each call, in the order of the calls of each process; the prefix is as long as the call has got, and the whole buffer once the call has returned, unless it gave up |
| `PipeCalls.OneWriter` | HW2/src/pipe.c:78-121 | if one process does all the writing and never gives up, what was written, and so what readers were handed, is a prefix of its buffers one after the other |
| `PipeCalls.ReadReturns` | HW2/src/pipe.c:100-121 | the call of piperead that returns is the last one that process made, for that count; it returns no more bytes than asked for, fewer only with the pipe then empty, and none only if the write end is closed or none were asked for |
| `PipeCalls.CloseTakesEffect` | HW2/src/pipe.c:59-76 | on every run, while no close is under way, an end is open exactly if no call of pipeclose has closed it |
| `Pipe.NoLostWakeupIff` | HW2/src/pipe.c:59-121 | on a run, everyone who sleeps while the lock is free has reason to, if and only if no writer gives up on a full pipe while a reader sleeps |
| `Pipe.NotKilledNoTrouble` | HW2/src/pipe.c:78-98 | while no process is killed no writer gives up on a sleeping reader |
| `Pipe.TroubleStays` | HW2/src/pipe.c:84-92 | a writer that gives up on a sleeping reader leaves it asleep on a pipe with bytes to read |
| `Pipe.WakeupIsLost` | HW2/src/pipe.c:84-92 | a run from a new pipe in which a writer, killed while it writes, leaves a reader asleep on a full pipe while no wakeup is due |
| `Pipe.StepKeeps` | HW2/src/pipe.c:59-121 | every step keeps the ring, the locks, the open flags and the sleepers in order, and keeps readers served unless a writer gives up on one |
| `Pipe.RunKeeps` | HW2/src/pipe.c:59-121 | the pipe invariant holds in every state that a run reaches |
| `Pipe.RingGains` | HW2/src/pipe.c:78-98 | storing a byte appends it to the buffered bytes, also across the wrap of nwrite |
| `Pipe.RingLoses` | HW2/src/pipe.c:100-121 | taking a byte removes the first of the buffered bytes, also across the wrap of nread |
| `Pipe.PosWrap` | HW2/src/pipe.c:85-93 | wrapping a counter at 2^32 does not move its place in the ring |
| `SleepLock.MutualExclusion` | HW2/src/sleeplock.c:22-53 | on every run at most one process has the lock, and holdingsleep tells which |
| `SleepLock.NoLostWakeup` | HW2/src/sleeplock.c:22-42 | on every run, while the lock is free and nobody is at work on it, no process sleeps on it |
| `SleepLock.NoDeadlock` | HW2/src/sleeplock.c:22-42 | on every run, while some process is in the middle of a call, some process can take its next step |
| `SleepLock.SleepsForHolder` | HW2/src/sleeplock.c:22-42 | on every run, who sleeps waits for another process that has the lock or is about to wake the sleepers |
| `SleepLock.RunKeeps` | HW2/src/sleeplock.c:22-42 | the lock invariant holds in every state that a run reaches |
| `Heap.FreeChain` | HW2/src/umalloc.c:24-44 | in all four cases of joining, the list stays circular, in address order and without blocks that touch |
| `Heap.FreeLives` | HW2/src/umalloc.c:24-44 | freeing one live block leaves the others disjoint from each other and from the list |
| `Heap.FreeUnits` | HW2/src/umalloc.c:24-44 | freeing conserves the units of list and live blocks together |
| `Heap.SplitLives` | HW2/src/umalloc.c:75-83 | cutting the tail off a free block gives a live block disjoint from all others |
| `Heap.EnoughIff` | HW2/src/umalloc.c:63-70 | the unit count covers the request if and only if the 32-bit sum does not wrap |
| `Heap.RequestBySize` | HW2/src/umalloc.c:46-70 | by size, what malloc asks sbrk for: the whole block up to 2^31 - 16 bytes; nothing or a negative amount above that; 4096 units for the last seven sizes, where the unit count wraps |
| `Umalloc.Allocator.constructor` | HW2/src/umalloc.c:18-22 | before the first malloc nothing is handed out |
| `Umalloc.Allocator.Search` | HW2/src/umalloc.c:29-32 | the loop ends at the one list element after which the block belongs |
| `Umalloc.Allocator.Free` | HW2/src/umalloc.c:24-44 | the block leaves the live ones, the list stays in order and coalesced, units are conserved, and the other live blocks are untouched |
| `Umalloc.Allocator.MoreCore` | HW2/src/umalloc.c:46-61 | adds at least the units asked for, and at least 4096, to the list; fails exactly if sbrk does; comes up short exactly if the 32-bit product, as an int, is not the size of the block |
| `Umalloc.Allocator.Malloc` | HW2/src/umalloc.c:63-90 | for every size: a new block of the right size disjoint from all others; 0 exactly if no free block is large enough and sbrk fails; too little memory for the block exactly if no free block is large enough and the request is not positive; memory comes from sbrk exactly if no free block is large enough, at most once; units are conserved but for what sbrk adds |
| `Grep.Match` | HW2/src/grep.c:72-82 | true if and only if some substring, a prefix for ^ and a suffix for a final $, is in the language of the items |
| `Grep.MatchHere` | HW2/src/grep.c:84-96 | true if and only if the pattern matches a prefix of the text |
| `Grep.MatchStar` | HW2/src/grep.c:98-106 | true if and only if the pattern matches after some run of accepted characters |
| `Grep.OneMatches` | HW2/src/grep.c:92-94 | the declarative meaning of an item without a star |
| `Grep.StarMatches` | HW2/src/grep.c:88-89 | the declarative meaning of an item with a star |
| `Grep.EndMatches` | HW2/src/grep.c:90-91 | the declarative meaning of a final $ |
| `Grep.FixedMatches` | HW2/src/grep.c:72-96 | a pattern without stars and anchors matches exactly if some part of the text is the pattern, where a dot stands for any character |
| `Grep.AnchoredMatches` | HW2/src/grep.c:72-96 | with ^ the text must start with the pattern, with a final $ it must end with it, with both it must be of the same length |
| `Grep.StarOnly` | HW2/src/grep.c:84-106 | an anchored starred character matches exactly the texts made of that character alone, and every text if it is a dot |
| `ShellTrip.RoundTrip` | HW2/src/sh.c:327-446 | every command tree with valid words and at most nine arguments has a canonical line, and is what parsecmd makes of it |
| `ShellTrip.LineFits` | HW2/src/sh.c:327-446 | the sentence written for a tree is in the language and means that tree |
| `ShellTrip.LineTripBack` | HW2/src/sh.c:327-446 | for every accepted line, its tree is one that can be written, and parsing the canonical line of that tree gives the same tree |
| `ShellGrammar.ParsesExactly` | HW2/src/sh.c:258-446 | parsecmd makes the tree t of a line if and only if the line is in the language with meaning t: tokens by a lexical relation with the five white-space characters, the seven symbols and >>, words and redirections in any order, blocks with redirections after them, pipes, lists and & |
| `ShellGrammar.Accepted` | HW2/src/sh.c:327-446 | every line whose tokens are a sentence of the language is accepted, and its tree is the meaning of the sentence |
| `ShellGrammar.InLanguage` | HW2/src/sh.c:327-446 | every line that is accepted is a sentence of the language, whose meaning is the tree |
| `ShellGrammar.Tokenize` | HW2/src/sh.c:265-308 | every line is some list of tokens in the lexical relation |
| `ShellGrammar.OneTokenList` | HW2/src/sh.c:265-308 | and of only one |
| `ShellGrammar.TokenFound` | HW2/src/sh.c:265-308 | gettoken finds the token that the lexical relation has at a position, and where it ends |
| `ShellGrammar.RedirsAccepted` | HW2/src/sh.c:374-397 | parseredirs reads each operator with the file after it: < for input and > or >> for output, up to the first token that is no operator |
| `ShellGrammar.RedirsInLanguage` | HW2/src/sh.c:374-397 | what parseredirs accepts is such a list of redirections, in the order of the line |
| `ShellGrammar.ArgsAccepted` | HW2/src/sh.c:431-442 | the argument loop collects the words, at most nine, and the redirections between them |
| `ShellGrammar.CommandAccepted` | HW2/src/sh.c:399-446 | parseexec and parseblock accept a simple command or a block, with its redirections applied in the order of the code |
| `ShellGrammar.PipelineAccepted` | HW2/src/sh.c:361-372 | parsepipe accepts commands joined by bars, the right one nested |
| `ShellGrammar.LineAccepted` | HW2/src/sh.c:344-359 | parseline accepts pipelines with any number of & after each and ; between them |
| `ShellTrip.RenderLexes` | HW2/src/sh.c:265-308 | gettoken finds exactly the tokens of a canonical line |
| `Shell.StringsRead` | HW2/src/sh.c:449-493 | after nulterminate, every argument and file name of a parsed command reads as exactly its word |
| `Shell.Nulterminate` | HW2/src/sh.c:449-493 | writes a zero at the end of every string of the command and nowhere else |
| `Shell.ParseLineOk` | HW2/src/sh.c:344-359 | every string of a parsed command is a whole word of the line |
| `ShellCode.Parser.NextToken` | HW2/src/sh.c:265-308 | the loops of gettoken compute the token and leave the position after it and the white space |
| `ShellCode.Parser.LooksAt` | HW2/src/sh.c:310-320 | the loop of peek skips white space and sees the next character |
| `ShellCode.Parser.Redirections` | HW2/src/sh.c:374-397 | the loop collects what the recursive definition does, which is what the grammar says, and ends |
| `ShellCode.Parser.Simple` | HW2/src/sh.c:415-446 | the code agrees with the recursive definition in result, position and failure |
| `ShellCode.Parser.Words` | HW2/src/sh.c:431-442 | the argument loop agrees with the recursive definition, panicking at the tenth argument |
| `ShellCode.Parser.Block` | HW2/src/sh.c:399-413 | the code agrees with the recursive definition in result, position and failure |
| `ShellCode.Parser.Pipeline` | HW2/src/sh.c:361-372 | the code agrees with the recursive definition in result, position and failure |
| `ShellCode.Parser.Line` | HW2/src/sh.c:344-359 | the code agrees with the recursive definition in result, position and failure |
| `ShellCode.Parser.Command` | HW2/src/sh.c:327-342 | the code computes the parse that the grammar fixes, and panics on leftovers |

## Left out

- SharedCode.Kernel.AllocSharedVM: leaves out that its two error returns between pushcli and popcli do not restore the interrupt flag; after the remap panic it promises only that every page still has one use.
- SharedCode.Kernel.Fork: leaves out open files, the working directory and the trap frame, which are not part of an address space.
- SharedCode.Kernel.Exit: leaves out closing files and the working directory; what exit does to the process table is in Procs.
- VmCode.Machine.Deallocuvm: requires that the range maps only pages of the process itself; its callers drop shared regions first.
- VmCode.Machine.Freevm: requires the same of the whole address space, for the same reason.
- VmCode.Machine.Allocuvm: requires that nothing is mapped between the old size and the new one, as its callers see to; otherwise mappages panics.
- VmCode.Machine.Mappages: stated for kernel addresses and permissions without PTE_U, as setupkvm calls it; user pages are mapped one at a time through MapPage.
- VmCode.Machine.Kfree: requires that the page is not free already, which the code does not test.
- FileCode.File.FileWrite: stated for a file that is an inode; a pipe goes to pipewrite, which is in Pipe, and what the driver of a device does is not modelled.
- FsCode.FileSystem.Writei: requires an allocated inode, as ilock guarantees.
- InodeCode.Inodes.Ilock: requires an entry of ROOTDEV with an inode number below the number of inodes; otherwise it would read a block outside the inode area.
- Bio.Cache.Bread: starts once the sleep lock of the buffer is free; waiting for it is in SleepLock.
- Bio.Cache.Brelse: releases the sleep lock and drops the reference in one step, and requires that a changed buffer went through log_write or bwrite, as bio.c asks of its callers.
- BufLog.WriteLogTurn: starts once the sleep locks of its two buffers are free, as Bread does; the same holds for InstallTurn and WriteHeadTurn.
- Umalloc.Allocator.Malloc: sbrk is a parameter that returns memory above all it gave before; after a request that was not positive it promises nothing, because the header is then written outside the heap.
- CrashFs.WriteSurvivesCrash: the transactions of one write run without others interleaved; group commit over all interleavings is in LogMachine and in RecoveredFileSystem.
- Procs.ReapedOnce: pids are unbounded here; the wrap of nextpid is not modelled.
- Directories, path names and link counts across create, link and unlink.
- exec, and with it the case that a process replaces its address space while it holds a region.
- filealloc, filedup, fileclose and fileread: reference counts and dispatch with easy contracts.
- pipealloc, and the kfree of a pipe whose two ends are closed.
- Running the parsed commands in the shell, and the line buffer of grep.
- The shell of HW1, which reads one kind of command structure as another.
- Boot, interrupts, devices, the console, TLB flushes and memory ordering; steps are atomic and sequentially consistent.
- The choice of the scheduler: any runnable process may be dispatched on any free CPU.
