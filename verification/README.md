# A verified model of xv6-riscv with signals

This project models the parts of a small Unix kernel and its user programs where the code is hardest to get
right, and proves what those parts are for. The kernel is xv6 for RISC-V with an added signal layer. All code is
Dafny 4; `dafny verify dfyconfig.toml` checks every file.

## What is modelled

**Storage.** The disk is a sequence of blocks, written one at a time; a crash stops the run after any write.

- `GroupCommit` is the step system of `begin_op`, `log_write`, `end_op` and the end of a commit, for every
  interleaving of any number of operations. `Redo` says what the on-disk log means and that recovery can be cut short
  and rerun. `LogManager.Log` is the log itself, with its loops and its commit. `LogManager.Writes` ties a list of disks
  to the single block writes that lead from one to the next, and `LogManager.CrashAtomicity` is about every disk in it.
- `Bcache.Cache` is the buffer cache: a circular doubly linked list in two arrays, and a ghost block map (`view`)
  that it refines.
- `PinnedBlocks.Buffers` is how the log uses that cache: every reference on a buffer is accounted for as a holder's or
  the log's, so a logged block cannot leave the cache before it is on disk.
- `Bitmap`, `Ownership` and `Fs.FileSystem` are the bitmap allocator and the inode layer. Each block has exactly one
  ghost owner, so two inodes can never share one. File content is a flat byte sequence (`Content`), and writing is
  `Spliced`. `FileWrite` cuts a write into transactions, says what each of them does and bounds what it logs.

**Virtual memory.** `PageTable`, `Memory` and `UserMemory` describe three-level Sv39 page tables (section 4.4 of the
RISC-V Privileged Architecture, version 20211203) as flat maps from page numbers to entries. Each frame has exactly one
ghost role. `Vm.Machine` holds `walk`, `mappages`, `uvmunmap`, `uvmalloc`, `uvmdealloc`, `uvmcopy`, `freewalk` and
`uvmfree`; `Dismantle` is the reasoning about `freewalk`; `ProcPageTable` is `proc_pagetable` and
`proc_freepagetable`; `ProcMemory` is the memory of a process in `allocproc`, `fork` and `freeproc`. Which tables are
added and how many frames an operation takes is exact, so running out of memory has an exact condition. `Kmem` is the
free list threaded through the pages.

**Processes.** `SleepLock` is a step system for any number of processes that contend for one sleep lock through
`sleep` and `wakeup`, at the grain of single lock operations. `ProcTree` is the process table with `fork`, `exit` and
`wait`. `Signals` is the signal ring, `send_signal` and `handle_signals` for arbitrary handlers.

**Rings.** `Pipe` has free-running 32-bit counters; `Virtqueue` and `VirtioDisk` are the disk driver's split virtqueue
(sections 2.6 and 5.2 of VIRTIO v1.1) next to a device that completes requests in any order, with 16-bit counters.

**User programs.** `Arena` and `Umalloc` are the allocator of Kernighan and Ritchie; `ShellGrammar` is the shell's
command language as a grammar and `Shell` the parser, which accepts exactly that grammar and NUL-terminates the words in
place; `Grep` is the matcher against a declarative meaning of patterns.

The state a C function updates in place is a class here, or a value that the methods of a class replace; loops stay
loops. A method is proved equal to, or related by a named predicate to, a function of the old state, and the
properties of those functions and predicates are lemmas. I/O, the clock, the device, the scheduler, other processes and
user handlers are parameters: sequences of events, turns or runs that may be anything.

## Where the code falls short of its promise

- `log_write` tests for room before it looks for the block in the log, and refuses at `log.size - 1`. So a full log
  panics even for a block it holds (`GroupCommit.RelogCanPanic`). On a log of more than `LOGSIZE` blocks the panic comes
  exactly when the log is full, and then every outstanding operation has used its whole reservation and this one logs a
  block again (`GroupCommit.LogWritePanicsExactlyWhen`). If no operation logs a block twice, "too big a transaction" is
  out of reach exactly when the log has more than `LOGSIZE` blocks (`GroupCommit.FreshRunsFitExactlyWhen`);
  `mkfs/mkfs.c:25` makes it `LOGSIZE` blocks. With logging again allowed, it is out of reach if every operation leaves j
  blocks of its reservation unused and the log has at least `LOGSIZE + 2 - j` blocks
  (`GroupCommit.SparingRunNeverPanics`). `writei` logs a new block twice; on a disk with one bitmap block, such as mkfs
  makes, a transaction of `filewrite` leaves three (`FileWrite.ChunkLogs`).
- A log of more than `LOGSIZE` blocks has a limit of its own: with `NBUF` blocks logged all buffers are pinned, and
  `write_log` finds none to read a log block into (`PinnedBlocks.Buffers.CopyToLog`, `PinnedBlocks.SpareExactlyWhen`).
- `uvmdealloc` is documented to accept an old size beyond the actual one; it panics exactly when a page between the
  two sizes is not mapped (`Vm.Machine.UvmDealloc`). The code is modelled.
- `send_signal` returns with the receiver's lock held when the queue is full, unless the signal is to the sender
  itself (`Signals.SendSignal`).
- `malloc` asks `sbrk` for a 32-bit signed number of bytes. The block granted to a request that needs new memory lies
  below the new break exactly when the request is for at most 2^31 - 32 bytes, wherever the break is
  (`Umalloc.BlockFitsExactlyWhen`, `Umalloc.Allocator.Malloc`). For 2^31 bytes the break does not move up at all
  (`Umalloc.HugeRequest`).
- `piperead` takes a byte out of the pipe before it copies it to the reader; when that copy fails the byte is lost
  (`Pipe.Pipe.PipeRead` says exactly when).

## Model

| member | source | states |
|---|---|---|
| GroupCommit.StepKeepsInv | kernel/log.c:126-175 | every step of begin_op, log_write, end_op or the end of a commit keeps logged blocks distinct, commits only without outstanding operations, and logged blocks plus unused reservations within LOGSIZE |
| GroupCommit.EveryRunIsSafe | kernel/log.c:126-175 | that invariant holds after every interleaving of any length |
| GroupCommit.NoPanicAtEnd | kernel/log.c:146-175 | the "log.committing" panic is unreachable and no log_write can happen during a commit |
| GroupCommit.LastOneCommits | kernel/log.c:146-163 | after every run, a log with blocks in it and no operation outstanding is committing, and with an operation outstanding it is not |
| GroupCommit.EndCommitsExactlyWhen | kernel/log.c:146-163 | end_op starts a commit if and only if it ends the only operation outstanding |
| GroupCommit.FreshRunNeverPanics | kernel/log.c:214-235 | on a log of more than LOGSIZE blocks no run in which operations log each block once panics |
| GroupCommit.FreshRunsFitExactlyWhen | kernel/log.c:214-235 | "too big a transaction" is unreachable for such runs if and only if the log has more than LOGSIZE blocks |
| GroupCommit.RelogCanPanic | kernel/log.c:214-235 | a full log panics even for a block it already holds, because the capacity test precedes absorption |
| GroupCommit.LogWritePanicsExactlyWhen | kernel/log.c:214-235 | on a large enough log a log_write panics if and only if the log is full, and then it logs a block again and every outstanding operation has used its whole reservation |
| GroupCommit.SparingRunNeverPanics | kernel/log.c:126-235 | operations that leave j blocks of their reservations unused, however often they log a block, never panic on a log of at least LOGSIZE + 2 - j blocks |
| Redo.InstallAgain | kernel/log.c:68-83 | installing over a partly installed disk ends in the same disk |
| Redo.RecoveryIsRestartable | kernel/log.c:68-123 | the disk after any write of a recovery recovers to the same result |
| Redo.AnyNumberOfCrashes | kernel/log.c:117-123 | recovery cut short any number of times recovers what an uninterrupted one would and leaves an empty log |
| Redo.RecoversTransaction | kernel/log.c:68-83 | a disk whose log holds a transaction recovers to the old home blocks overlaid with all of it |
| Redo.RecoversNothing | kernel/log.c:117-123 | a disk with an empty header recovers to its own home blocks |
| LogManager.CommittedStates | kernel/log.c:194-203 | every state from the commit point on recovers to the whole transaction |
| LogManager.WritesThenWrites | kernel/log.c:194-203 | two runs of single block writes, the second from where the first ended, are one |
| LogManager.RecoveryWrites | kernel/log.c:68-123 | installing the logged blocks and erasing the header are single block writes that lead to the recovered disk |
| LogManager.CrashAtomicity | kernel/log.c:178-203 | stopping a commit before or after any of its block writes, with recovery itself interrupted any number of times, leaves home blocks all old up to the commit point and all new from it on, and an empty log |
| LogManager.TransactionReady | kernel/log.c:178-191 | after write_log and write_head the on-disk log holds exactly the pinned blocks |
| LogManager.Log.BeginOp | kernel/log.c:126-142 | one pass of the loop: admitted if and only if no commit is on and n + (outstanding + 1) * MAXOPBLOCKS is within LOGSIZE; then outstanding rises by one, and nothing else changes |
| LogManager.Log.LogWrite | kernel/log.c:214-235 | it panics if and only if n is LOGSIZE or log.size - 1; else the block is listed once, after those before it, and the file system sees the new contents of that block only |
| LogManager.Log.Record | kernel/log.c:223-233 | the block is absorbed or appended, never listed twice |
| LogManager.Log.EndOp | kernel/log.c:146-175 | outstanding drops by one; the caller is to commit, and committing is set, if and only if it was the last one; no panic |
| LogManager.Log.CommitDone | kernel/log.c:166-174 | the step Committed |
| LogManager.Log.WriteLog | kernel/log.c:178-191 | the log blocks hold the pinned contents; the disk gets there by the block writes listed, and after each of them recovers to the old home blocks |
| LogManager.Log.WriteHead | kernel/log.c:102-114 | one block write makes the on-disk header that of memory |
| LogManager.Log.ReadHead | kernel/log.c:86-97 | the header in memory is the one on disk |
| LogManager.Log.InstallTrans | kernel/log.c:68-83 | the disk passes through the states of Install one write at a time and every block is unpinned |
| LogManager.Log.LogTransaction | kernel/log.c:194-198 | one list holds the disk after every block write; up to the header write each recovers to the old home blocks, and from it on the log holds the transaction |
| LogManager.Log.Commit | kernel/log.c:194-203 | the disk gets from the old state to the new by the block writes listed; from the old state to the commit point each recovers to the old home blocks, from it on to the new ones, and what the file system sees does not change |
| LogManager.Log.RecoverFromLog | kernel/log.c:116-123 | the disk becomes the recovered one by the block writes listed, each leading to a recovery state, with an empty log |
| Bcache.UnlinkKeepsRing | kernel/bio.c:128-130 | two assignments take a buffer out of the ring and leave the others in order |
| Bcache.InsertKeepsRing | kernel/bio.c:131-134 | four assignments put a buffer right after the head |
| Bcache.RecycleKeepsView | kernel/bio.c:77-84 | recycling an unused buffer changes no block a reader can see and creates no second copy |
| Bcache.FillKeepsView | kernel/bio.c:96-102 | reading a block in gives its current contents |
| Bcache.FlushKeepsView | kernel/bio.c:106-112 | writing a buffer out changes nothing a reader can see |
| Bcache.Cache.constructor | kernel/bio.c:36-53 | the list is a ring of all NBUF buffers, none in use, standing for the disk |
| Bcache.Cache.Find | kernel/bio.c:66-74 | the buffer of the block, or proof that no buffer has it |
| Bcache.Cache.FindUnused | kernel/bio.c:76-87 | the least recently used buffer not in use, or proof that all are |
| Bcache.Cache.Bget | kernel/bio.c:58-89 | the cached buffer or the least recently used free one, its count raised; it panics if and only if the block is not cached and every buffer is in use |
| Bcache.Cache.Bread | kernel/bio.c:92-103 | a valid buffer with the latest contents of the block; buffers in use, pinned ones among them, keep block and contents |
| Bcache.Cache.Bwrite | kernel/bio.c:106-112 | the disk gets the buffer's contents and the block map stays as it is |
| Bcache.Cache.Brelse | kernel/bio.c:116-137 | the count drops, and an unused buffer becomes the most recently used with the others in order |
| Bcache.Cache.Bpin | kernel/bio.c:139-144 | only the count rises, so the buffer cannot be recycled |
| Bcache.Cache.Bunpin | kernel/bio.c:146-151 | only the count drops |
| PinnedBlocks.ViewIsLoggedOrDisk | kernel/log.c:205-235 | a reader sees the contents in the pinned buffer of a logged block and the disk's contents of every other |
| PinnedBlocks.Buffers.Read | kernel/bio.c:92-103 | the latest logged or written contents of the block; no buffer of a logged block is recycled or changed |
| PinnedBlocks.Buffers.Change | kernel/log.c:205-213 | a holder's change is what readers see from then on, and the holder answers for it |
| PinnedBlocks.Buffers.LogWrite | kernel/log.c:214-235 | the block is pinned once however often it is logged, and the log answers for the change |
| PinnedBlocks.Buffers.Release | kernel/bio.c:116-137 | dropping a reference never drops contents the disk lacks |
| PinnedBlocks.Buffers.WriteOut | kernel/bio.c:106-112 | a holder's buffer goes to the disk, and the holder answers for nothing any more |
| PinnedBlocks.Buffers.Install | kernel/log.c:73-79 | the log block is copied to the home buffer, which is on disk before the pin is given up; readers see a change only if the two differed |
| PinnedBlocks.Buffers.CopyToLog | kernel/log.c:178-191 | the log block on disk gets the pinned contents and nothing else changes; with no buffer held it panics if and only if NBUF blocks are logged |
| PinnedBlocks.AllPinnedExactlyWhen | kernel/bio.c:76-88 | with no buffer held, every buffer is in use if and only if as many blocks are logged |
| PinnedBlocks.SpareExactlyWhen | kernel/bio.c:76-88 | a block that is not logged then finds no buffer in exactly that case |
| Bitmap.MarkUsed | kernel/fs.c:75-77 | setting a clear bit changes that bit only and stays within a byte |
| Bitmap.MarkFree | kernel/fs.c:98-102 | clearing a set bit changes that bit only |
| Ownership.FreshImage | kernel/fs.c:61-105 | an image with empty inodes whose bitmap marks exactly the blocks in front of the data area satisfies the invariant |
| Ownership.BitmapLayout | kernel/fs.h:51 | the bits of all blocks stand one after the other in the bitmap blocks |
| Ownership.LinkDirect | kernel/fs.c:388-395 | entering a new block in a direct slot keeps every block with one owner and loses none of the file |
| Ownership.LinkIndirect | kernel/fs.c:399-406 | entering a new indirect block adds no data block and keeps ownership |
| Ownership.LinkEntry | kernel/fs.c:407-417 | entering a block in the indirect block changes no other file and keeps ownership and bitmap in agreement |
| Ownership.Detach | kernel/fs.c:425-453 | the blocks of one inode can be taken from it while all others keep theirs |
| Fs.SplicedReads | kernel/fs.c:498-539 | what is written is read back and bytes outside the range are the old ones |
| Fs.SplicedTwice | kernel/fs.c:518-527 | two adjacent writes are one write of both pieces |
| Fs.WriteStep | kernel/fs.c:518-527 | one turn of the writei loop adds the next bytes, changes no other file and keeps the invariant |
| Fs.WrittenContent | kernel/fs.c:529-538 | with the size brought up to date the content is the spliced one and has no holes |
| Fs.RangeCheck | kernel/fs.c:511-514 | the tests with their 32-bit sum refuse exactly the writes that start past the end or run past the largest file |
| Fs.ReadStep | kernel/fs.c:482-492 | a block inside the file is present and its stretch is that of the content |
| Fs.FileSystem.Balloc | kernel/fs.c:65-88 | the first unmarked block, now marked and zeroed and both writes logged, with no file changed; 0 only when every block is in use |
| Fs.FileSystem.FindClear | kernel/fs.c:73-83 | the first clear bit of one bitmap block |
| Fs.FileSystem.Bfree | kernel/fs.c:91-105 | exactly one bit is cleared and only its bitmap block is logged or changed, and "freeing free block" is unreachable |
| Fs.FileSystem.Bmap | kernel/fs.c:382-421 | the block is found or added to this file only, every block changed is logged, at most one bitmap block per block added, and failure means a full disk |
| Fs.InodeLayout | kernel/fs.h:45 | the inodes stand one after the other in the inode blocks |
| Fs.FileSystem.Iupdate | kernel/fs.c:226-241 | the on-disk inode becomes the one in memory and its block is logged |
| Fs.FileSystem.Writei | kernel/fs.c:505-539 | the content becomes old[..off] + written + old[off + tot..], other files and the file system's own blocks but the bitmap are untouched, no holes appear, every block changed is logged and the logged blocks are bounded, and it falls short only when a copy fails or the disk is full |
| Fs.FileSystem.Readi | kernel/fs.c:471-496 | it returns exactly content[off..min(off + n, size)] across block and indirect boundaries and allocates nothing |
| Fs.FileSystem.Itrunc | kernel/fs.c:425-453 | exactly the inode's blocks become free, every other block keeps its owner, of the file system's own blocks only the bitmap changes, every block changed is logged, and no panic is reachable |
| FileWrite.ChunkLogs | kernel/file.c:149-167 | a chunk's writei at any offset logs at most MAXOPBLOCKS blocks, and at most seven on a disk with one bitmap block |
| FileWrite.ChunkWritten | kernel/file.c:157-173 | a transaction adds just what its writei wrote to what the call has written |
| FileWrite.Filewrite | kernel/file.c:135-181 | the file system goes through one state per transaction: each starts at its own chunk, splices in what its writei returned, logs every block it changes and at most MAXOPBLOCKS in all; all but the last write their whole chunk, and the last falls short only because it was out of range, found the disk full or met a failing copy |
| PageTable.LinkL1 | kernel/vm.c:91-100 | linking a zeroed level-1 table changes no lookup and keeps every table page with one place |
| PageTable.LinkL0 | kernel/vm.c:91-100 | the same for a level-0 table |
| PageTable.StoreLeaf | kernel/vm.c:158-159 | storing one last-level entry changes the lookup of that page and of no other, in any page table |
| PageTable.StoredKeepsInv | kernel/vm.c:142-192 | after it table pages are still unshared and never alias mapped frames |
| PageTable.ChangeOther | kernel/kalloc.c:46-82 | writing or handing over a frame that is no table page touches no page table, if the frame is unmapped or stays outside the tables' own |
| PageTable.NewRoot | kernel/vm.c:196-205 | a zeroed frame is an empty page table of its own |
| Memory.AllFree | kernel/kalloc.c:26-40 | memory in which every frame is free satisfies the invariant |
| Memory.MapsOne | kernel/vm.c:153-162 | mapping one more page adds that entry and nothing else |
| Memory.ClearGood | kernel/vm.c:179-190 | clearing an entry, and freeing its frame if asked, unmaps that page only; a user page not freed is the kernel's |
| Memory.WalkedCount | kernel/vm.c:90-101 | walk succeeds if and only if the tables lacking on the way can be allocated, or, without alloc, none is lacking |
| UserMemory.Rollback | kernel/vm.c:236-245 | unmapping what was added gives back every mapping and every user frame; only table pages lacking before stay |
| UserMemory.PathsMore | kernel/vm.c:90-101 | the tables lacking for k + 1 pages are those lacking for k pages and then those lacking for the next |
| Vm.Machine.Walk | kernel/vm.c:85-103 | the level-0 table of the page; exactly the tables lacking on the way to it are added, no lookup changes, and it fails if and only if there are fewer free frames than those tables |
| Vm.Machine.MapPages | kernel/vm.c:142-165 | exactly the pages of the range map the frames in order and exactly the lacking tables are added; it fails only with fewer free frames than lacking tables, and the panics have exact causes |
| Vm.Machine.UvmUnmap | kernel/vm.c:170-192 | exactly the range is unmapped and, if asked, its frames freed; it panics if and only if the address is unaligned or a page is not mapped |
| Vm.Machine.UvmDealloc | kernel/vm.c:255-267 | the pages between the two sizes are unmapped and freed; it panics if and only if one of them is not mapped |
| Vm.Machine.UvmAlloc | kernel/vm.c:225-249 | pages of zeroes with the flags asked for, on frames of their own, if and only if there is a free frame for each page and each table lacking on the way; otherwise 0, with mappings and user frames as before and no table page but those |
| Vm.Machine.UvmCopy | kernel/vm.c:305-333 | every page of the child has the flags and bytes of the parent's, on frames that were free, if and only if there are frames for the pages and the lacking tables; otherwise everything is as before except such table pages |
| Vm.ParentPage | kernel/vm.c:312-323 | while the child grows, the parent's page stays where and what it was |
| Dismantle.DoomedTables | kernel/vm.c:269-287 | a page table hangs together from its root and reaches all its table pages |
| Dismantle.OutOfService | kernel/vm.c:269-287 | freewalk can reach a leaf if and only if some page is mapped |
| Dismantle.FreesWhole | kernel/vm.c:289-297 | unmapping the user pages and then freeing the tables frees exactly the frames of that page table |
| Vm.Machine.FreeWalk | kernel/vm.c:269-287 | every table page below is freed once and no other frame changes; it panics if and only if there is a leaf |
| Vm.Machine.UvmFree | kernel/vm.c:289-297 | all frames of the page table are free and every other page table means what it meant; it panics if and only if a page below the size is missing or one beyond it is mapped |
| ProcPageTable.UvmCreate | kernel/vm.c:196-205 | a fresh zeroed root from the head of the free list |
| ProcPageTable.ProcPagetable | kernel/proc.c:194-245 | a page table with exactly the four special pages, each with its frame and flags, if and only if three frames are free; otherwise, whatever step ran out of memory, every frame back |
| ProcPageTable.SpecialEntries | kernel/proc.c:207-242 | entry by entry, frame and flags of the four pages; beyond the user pages the user reaches the signal code and the signal stack only |
| ProcPageTable.ProcFreePagetable | kernel/proc.c:247-257 | exactly the table pages and user pages are freed, also when frames of special pages are on the free list already; no panic is reachable |
| ProcPageTable.MakeThenDestroy | kernel/proc.c:194-257 | making and destroying a page table returns every frame |
| ProcPageTable.MakeGrowDestroy | kernel/proc.c:194-257 | so does making, growing and destroying one |
| ProcMemory.Proc.FreeProc | kernel/proc.c:175-192 | the trap frame, the signal stack, all table pages and all user pages are free, each once, although the first two are freed while mapped; nothing else changes and no panic is reachable |
| ProcMemory.Proc.AllocProc | kernel/proc.c:137-155 | a process's frames and page table if and only if five frames are free, every frame back otherwise |
| ProcMemory.Proc.Fork | kernel/proc.c:327-338 | the child has a copy of its parent's pages if and only if 5 + n + the tables for n pages are free, every frame back otherwise; the parent keeps what it has |
| ProcMemory.TablesOfPages | kernel/vm.c:85-103 | how many tables n user pages take besides those of the special pages: one for every 512 pages and one for every 512 * 512 |
| ProcMemory.AcquiredThenReleased | kernel/proc.c:137-192 | a process given any memory and then freed has given every frame back |
| ProcMemory.RestoredThenReleased | kernel/proc.c:332-337 | so has a child whose copy failed |
| ProcMemory.AcquiredKeepsHolds | kernel/proc.c:137-155 | giving memory to one process takes nothing from another |
| ProcMemory.ReleasedKeepsHolds | kernel/proc.c:175-192 | freeing one process takes nothing from another |
| Kmem.Allocator.Kfree | kernel/kalloc.c:46-63 | the page goes to the front of the list; the panic has its exact condition |
| Kmem.Allocator.Kalloc | kernel/kalloc.c:68-82 | the page at the front, or 0 exactly when there is none |
| Kmem.Allocator.FreeRange | kernel/kalloc.c:33-40 | exactly the whole pages of the range become free, each once |
| SleepLock.StepKeepsInv | kernel/proc.c:779-830 | every lock operation of acquiresleep, sleep, wakeup and releasesleep, and every kill, keeps the invariant below |
| SleepLock.EveryRunIsSafe | kernel/sleeplock.c:21-41 | in every run at most one process holds the lock, and a sleeper's lock is held or a wakeup has not come to it yet |
| SleepLock.HoldingSleepIsRight | kernel/sleeplock.c:43-52 | holdingsleep is true exactly for the process between taking the lock and giving it up |
| SleepLock.TestDecides | kernel/sleeplock.c:21-31 | acquiresleep goes to sleep exactly when the lock is held, and else owns it |
| SleepLock.WayThrough | kernel/sleeplock.c:21-41 | a process leaves acquiresleep only into its critical section, and that only through releasesleep |
| SleepLock.OutOnlyAfterHavingIt | kernel/sleeplock.c:21-41 | in every run, a process that called acquiresleep and is out again has held the lock in between |
| SleepLock.NoDeadlock | kernel/sleeplock.c:21-41 | while some process is inside the protocol, some process can take a step |
| ProcTree.AllocKeeps | kernel/proc.c:105-170 | allocproc keeps the process-table invariant, also when memory runs out |
| ProcTree.ExitKeeps | kernel/proc.c:370-427 | exit keeps it, and nobody has the exited process as parent |
| ProcTree.WaitKeeps | kernel/proc.c:467-512 | wait keeps it |
| ProcTree.OnlyItsParentReaps | kernel/proc.c:479-500 | a zombie leaves the table only by a wait of its current parent, which gets its own pid and status; otherwise it changes only when that parent exits, and stays a zombie |
| ProcTree.ReapTakesAZombie | kernel/proc.c:479-500 | what a wait reports is a zombie child of the caller that has gone |
| ProcTree.StepKeepsInv | kernel/proc.c:320-512 | every step of fork, exit, wait or the scheduler keeps the invariant |
| ProcTree.EveryRunIsSafe | kernel/proc.c:320-512 | in every interleaving pids in use are distinct, every process past fork except init has a live parent, and no process is reaped twice |
| ProcTree.ReapedHadExited | kernel/proc.c:387-512 | from the events alone: every status a wait reports was the argument of an earlier exit by the running process with that pid |
| ProcTree.ForkMakesAChild | kernel/proc.c:320-363 | the three steps of fork end in a runnable child of the caller with the next pid, in the slot found, and change no other slot |
| ProcTree.NextPidFits | kernel/proc.c:105-116 | no pid wraps a 32-bit int in a run with at most 2^31 - 3 allocations |
| ProcTree.Table.AllocProc | kernel/proc.c:122-157 | the first unused slot gets the next pid; it succeeds if and only if there is one and memory suffices, and is unused again otherwise |
| ProcTree.Table.Reparent | kernel/proc.c:369-382 | exactly the children of p become init's |
| ProcTree.Table.Exit | kernel/proc.c:387-427 | the caller is a zombie with the status given, its children are init's, and no other slot changes |
| ProcTree.Table.WaitScan | kernel/proc.c:476-511 | the first zombie child is reaped, with its pid and status, if and only if there is one and its status can be copied; else no children, killed, or sleep, and nothing changes |
| Signals.FindReceiver | kernel/proc.c:942-950 | the last slot with the pid, or none |
| Signals.SendSignal | kernel/proc.c:941-970 | 2, 1 or 0 exactly for an unknown receiver, a full queue or a signal queued; it goes to the last slot with the pid, whose lock is left held exactly in the second case for another sender; no other process changes |
| Signals.HandlerArguments | kernel/proc.c:577-584 | a handler finds its signal's kind and sender in the two halves of its first argument |
| Signals.Process.Enqueue | kernel/proc.c:956-963 | the ring holds the accepted signals in order and never more than 511 |
| Signals.Process.Accept | kernel/proc.c:952-969 | the signal is queued unless 511 wait, and the lock is given back unless they do |
| Signals.Process.Pop | kernel/proc.c:547-550 | the oldest waiting signal leaves |
| Signals.Process.Deliver | kernel/proc.c:553-614 | IGNORE gives 0, TERMINATE and KILL give -1; a custom handler starts at its own address with the signal in its registers and gives the signed low half of its a0, or -1 if it went to sleep; the context is restored after it |
| Signals.Process.HandleSignals | kernel/proc.c:528-634 | for any handler behaviour trapframe, context and kernel stack are as on entry; signals are popped in order, each answered as the handlers then in force say, until none is left or the process is dead; the first nonzero result ends it with that status |
| Pipe.WrapKeepsIndex | kernel/pipe.c:95 | the ring index is the same for the wrapped counter and the true count |
| Pipe.WrappedTests | kernel/pipe.c:89-113 | the tests on wrapped counters decide full and empty for any number of bytes |
| Pipe.AloneInOnePiece | kernel/pipe.c:76-103 | with no other writer a write appends its bytes in one piece |
| Pipe.Pipe.Close | kernel/pipe.c:58-74 | one end is closed, and the pipe is freed exactly when both are |
| Pipe.Pipe.PipeWrite | kernel/pipe.c:76-103 | a prefix of the source enters the history in order, whatever others do during the sleeps that took place; what was taken out stays a prefix of what was put in; -1 exactly when the last check found the reader gone or the writer killed, and nothing is written when the first does |
| Pipe.Pipe.PipeRead | kernel/pipe.c:105-130 | the reader gets the next bytes of the history, as many as there are, fit and were asked for; it sleeps only on an empty pipe with a writer; a byte is lost exactly when its copy fails; -1 exactly when the last check found the reader killed |
| Virtqueue.AtMostTwo | kernel/virtio_disk.c:202-213 | eight descriptors allow at most two requests |
| Virtqueue.WindowShort | kernel/virtio_disk.c:269-276 | so no ring entry is overwritten before it is consumed |
| Virtqueue.SubmitKeeps | kernel/virtio_disk.c:226-276 | offering a request on three free descriptors keeps chains disjoint, well formed and in agreement with free[] |
| Virtqueue.CompleteKeeps | kernel/virtio_disk.c:307-311 | a completion by the device, in any order, keeps the queue sound |
| Virtqueue.SeeKeeps | kernel/virtio_disk.c:311-323 | the entry looked at is the right completion, its buffer was busy, and only that buffer's flag is cleared |
| Virtqueue.RetireKeeps | kernel/virtio_disk.c:286-289 | freeing a finished chain frees exactly its descriptors |
| Virtqueue.WrappedTest | kernel/virtio_disk.c:311 | comparing the 16-bit counters tells whether completions are waiting |
| Virtqueue.EveryRunIsSafe | kernel/virtio_disk.c:215-327 | all of this after any sequence of requests, fetches, completions and interrupts, with no panic while the device reports success |
| Virtqueue.EveryCommandWasAskedFor | kernel/virtio_disk.c:215-276 | in every run, what a chain in flight tells the device is a request that was made: that buffer, that direction, that block |
| Virtqueue.SubmittedAsks | kernel/virtio_disk.c:232-262 | read by the device, the chain of a new request asks for the buffer, direction and block of the call |
| VirtioDisk.Disk.AllocDesc | kernel/virtio_disk.c:155-166 | a free descriptor, or proof that there is none |
| VirtioDisk.Disk.FreeDesc | kernel/virtio_disk.c:168-182 | exact panic conditions, and only that descriptor is freed |
| VirtioDisk.Disk.FreeChain | kernel/virtio_disk.c:184-197 | exactly the three descriptors of the chain are freed and no panic is reachable |
| VirtioDisk.Disk.Alloc3Desc | kernel/virtio_disk.c:199-213 | three distinct descriptors that were free, or all given back because fewer than three were |
| VirtioDisk.Disk.StartRequest | kernel/virtio_disk.c:215-276 | the chain asks the device for just the buffer, direction and block of the call, its head is in the next entry of the avail ring, and the queue stays sound; it sleeps only with fewer than three free descriptors |
| VirtioDisk.Disk.FetchRequest | kernel/virtio_disk.c:269-276 | what the device finds in the avail ring is a request not fetched before that asks for what was recorded |
| VirtioDisk.Disk.CompleteRequest | kernel/virtio_disk.c:307-311 | the device reports any request it has with any status, and the queue stays sound |
| VirtioDisk.Disk.Intr | kernel/virtio_disk.c:294-327 | every completion waiting clears its own buffer's flag, once, and nothing else changes; those noticed had status 0, and the panic is exactly for the first that has not |
| VirtioDisk.Disk.FinishRequest | kernel/virtio_disk.c:281-289 | exactly the three descriptors of the chain are free again, and the queue is sound |
| Arena.ReleaseKeeps | user/umalloc.c:24-44 | freeing keeps the list circular, ordered, disjoint and fully coalesced, and makes exactly the block's units free |
| Arena.TakeWhole | user/umalloc.c:75-77 | taking a whole free block keeps all that and removes exactly its units |
| Arena.TakeTail | user/umalloc.c:78-82 | so does taking the tail of one |
| Arena.Canonical | user/umalloc.c:24-44 | a well-formed heap has one free list only: its free units determine blocks, sizes and links |
| Arena.AllocateThenFree | user/umalloc.c:24-90 | freeing what was just allocated gives back the very same free list |
| Umalloc.BreakMovesExactlyWhen | user/umalloc.c:53-55 | the break moves by what was asked for if and only if the byte count fits in an int |
| Umalloc.RequestFitsExactlyWhen | user/umalloc.c:49-53 | that is so if and only if malloc was asked for at most 2^31 - 32 bytes |
| Umalloc.BlockFitsExactlyWhen | user/umalloc.c:46-55 | for every break, the block granted lies below the new break if and only if at most 2^31 - 32 bytes were asked for |
| Umalloc.HugeRequest | user/umalloc.c:49-53 | for 2^31 bytes the break never moves up, wherever it is, and the block granted ends above it |
| Umalloc.Allocator.FindPlace | user/umalloc.c:29-32 | the search ends, from any starting point, at the entry after which the block belongs |
| Umalloc.Allocator.Free | user/umalloc.c:24-44 | the block's units become free, other live blocks are untouched and blocks stay below the break |
| Umalloc.Allocator.Morecore | user/umalloc.c:46-61 | at least 4096 units are added in one free block, or nothing changes |
| Umalloc.Allocator.Malloc | user/umalloc.c:63-90 | a block with room for the bytes asked for and less than a unit more, from units that were free or new, disjoint from every live and free block, units conserved; 0 if and only if no free block fits and the system refuses; new memory is asked for at most once |
| ShellGrammar.LineTokens | user/sh.c:266-309 | every word of a line is mentioned exactly once by the command it stands for |
| ShellGrammar.WordsApart | user/sh.c:296-300 | two words are the same or have a character between them |
| ShellGrammar.TakeFirst | user/sh.c:375-447 | words and redirections built up from the right can be taken off from the left |
| Shell.WordsBecomeStrings | user/sh.c:449-494 | after nulterminate each argument and file name, read as a C string, equals its word |
| Shell.Parser.GetToken | user/sh.c:266-309 | the one token at the next position that is not white space |
| Shell.Parser.Peek | user/sh.c:311-321 | white space is skipped and the next character decides |
| Shell.Parser.Eat | user/sh.c:266-309 | the symbol that peek has seen is consumed, and its end is the only one possible |
| Shell.Parser.ParseRedirs | user/sh.c:375-398 | the redirections there are, with their modes and descriptors; a panic only where the grammar allows none |
| Shell.Parser.ParseExec | user/sh.c:416-447 | a simple command with fewer than ten words or a block, found exactly when the grammar allows one |
| Shell.Parser.ParseBlock | user/sh.c:400-414 | a line in parentheses with redirections, found exactly when the grammar allows one |
| Shell.Parser.ParsePipe | user/sh.c:362-373 | a pipeline grouped to the right, found exactly when the grammar allows one |
| Shell.Parser.ParseLine | user/sh.c:345-360 | jobs and background jobs separated by semicolons, found exactly when the grammar allows them; the recursion ends because input is consumed |
| Shell.Parser.NulTerminate | user/sh.c:449-494 | NULs at the ends of the command's words and nowhere else |
| Shell.Parser.ParseCmd | user/sh.c:328-343 | the one command the whole line stands for if there is one whose arguments fit, and a panic with the line unchanged otherwise; its words have become strings |
| Grep.FoundIsHere | user/grep.c:71-81 | a match somewhere is a match at the start of some suffix |
| Grep.HereItem | user/grep.c:83-95 | a pattern matches at the start if and only if its first item matches a first piece and the rest matches after it |
| Grep.MatchHere | user/grep.c:83-95 | true if and only if the text starts with pieces the items stand for |
| Grep.MatchStar | user/grep.c:97-105 | true if and only if c* followed by the rest matches at the start |
| Grep.Match | user/grep.c:71-81 | true if and only if some stretch of the text, the start after a caret and up to the end before a final dollar, decomposes into the items |

## Left out

- Copies between kernel and user memory succeed or fail as a whole in each turn; a copy that stops half-way leaves bytes in a cached block that this model does not show.
- The inode's type, link count and byte layout on disk, directories, path names, and files beyond the inode layer.
- The cache, the log and the file system are three objects, each proved against the block map it presents; one object that holds all three is not built.
- Fs.FileSystem.Itrunc: does not bound the blocks it logs.
- Fs.FileSystem.Iupdate: inodes on disk are a map next to the blocks, so the bytes of an inode block do not change; that the block is logged is stated.
- ProcMemory.Proc.Fork: the copy of the trap frame, open files, names and the process state are left out; ProcTree has the state.
- LogManager.Log.RecoverFromLog: requires a header that describes a transaction the log can hold, as every state of a commit or recovery has.
- Bcache.Cache.Bget: locks on buffers and the order in which waiting processes get them are not modelled.
- Vm.Machine.Walk: requires an address below MAXVA; that walk panics above it is part of what MapPages and UvmUnmap state.
- Vm.Machine.UvmDealloc: the mapped pages between the two sizes must be user pages of the table; kfree of another frame is outside the contract.
- Vm.Machine.UvmAlloc: requires the new pages to be unmapped and below MAXVA, as sizes kept by the callers make them; the remap panic is in MapPages.
- Vm.Machine.UvmCopy: requires the parent's pages to be mapped and the child's not; its two panics are for a parent without them.
- Vm.Machine.FreeWalk: takes the page table's place in the tree as ghost arguments.
- Vm.Machine.UvmFree: the mapped pages below the size must be user pages of the table.
- copyin, copyout, copyinstr, walkaddr and the kernel's own page table.
- Page-table entries are pairs of a frame and flags; their packing into 64 bits is not modelled, nor is the accessed and dirty behaviour of the hardware.
- Page contents and page-table contents of a frame are two views of it that are kept apart.
- SleepLock.EveryRunIsSafe: the processes sleep on one lock only; other channels and delivery of signals during sleep are not modelled.
- ProcTree.EveryRunIsSafe: pids grow without bound; NextPidFits says how long that agrees with a 32-bit nextpid. Memory is in ProcMemory; open files and the kill flag are left out.
- ProcTree.Table.WaitScan: one pass of the loop; the sleep between passes is a step of the scheduler.
- Signals.SendSignal: the receiver's lock must be free when another process sends; waiting for it is not modelled. Signal kinds are not negative.
- Signals.Process.HandleSignals: the kernel stack's bytes and the signal stack are not modelled, and a new process's queue is whatever the slot had.
- Umalloc.Allocator.Malloc: the heap grows from a break that is a multiple of 16 bytes, and the program's own data lies below it.
- Shell.Parser.ParseCmd: commands are values, so that the nodes are separate allocations in the source is not shown; the ghost argument stands for any command the line might stand for.
- Spin locks, fences and the memory model; boot, assembly, traps, devices other than the disk queue; alarms and timing.
- mkfs, the other user programs and the tests.
