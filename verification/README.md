# xv6 kernel and allocator: verified models

This project models the parts of the xv6 teaching operating system (RISC-V version, with a
reference-counted page allocator, a priority scheduler and a disk monitor) whose correctness
rests on arguments across many functions, and proves those arguments for all inputs, all runs
and all interleavings.

**Storage.** `RedoLog` defines what the redo log does to a disk as a sequence of single-block
writes, and proves crash atomicity with any number of crashes during recovery. `BufferCache`
is the linked-list buffer cache as a class, `Log` the code of the log as a class that keeps a
history of every disk state, and `LogRuns` any sequence of calls of it. `Storage` and
`StorageProof` put cache, log, any number of processes and crashes together as one state machine,
and `StorageHistory` tells from the list of actions what every block must hold: whole runs are
crash-safe, what was committed stays, `bread` shows what was last left for a block, and the log
reservation holds. `FullLog` fills the log. `CrashSafeFiles` carries crash safety up to files: after any crashes the
disk holds the files that the operations of whole transactions lead to, those of every committed
transaction among them.

**Files.** `Bitmap`, `Files`, `FileSystem`, `BlockMap`, `FileContent` and `Truncate` are the
theory of block ownership and file contents on the logical disk, `FileOps` the code of the
block and inode layer as a class, and `FileRuns` the refinement of any sequence of operations
to flat byte sequences. `InodeTable`, `InodeTableProof` and `InodeTableLaws` are the table of
in-memory inodes as a protocol.

**Address spaces.** `PageTable` gives the three-level Sv39 page table (section 4.4 of the RISC-V
Privileged Architecture, version 20211203) a ghost tree of disjoint pages and proves that it is a
finite map. `Vm`, `FreeWalk`, `UserMemory`, `ProcessMemory`, `ProcPages`, `ProcCalls` and
`MemoryRuns` go from `walk` to `fork`, `sbrk` and page faults: what each call changes, what it
leaves alone, and that every error path gives all pages back. `FlatMemory` is what a process sees
of it, and any sequence of calls refines that. `Kalloc` is the reference-counted
free list under its two locks.

**Protocols.** `ExitWait` and `ExitWaitProof` are fork, exit, wait, sleep and wakeup, and
`ExitWaitLaws` and `ExitWaitFlow` what they promise over whole runs, with two odd runs in
`ExitWaitRuns`; `Scheduler`, `SchedulerProof` and `SchedulerLaws` the priority scan on any number of
CPUs; `Virtqueue` and `VirtioDisk` the descriptor chains and rings of the disk driver ("Split
Virtqueues", section 2.6 of VIRTIO 1.1), and `VirtioRuns` their refinement to a queue of requests;
`Pipe` the pipe.

In the state machines the steps and their invariant come first; the laws are then stated over the
list of actions and the states of a run, not over records that the steps keep.

**Heap.** `FreeList`, `Umalloc` and `Heap` are the Kernighan and Ritchie allocator.

`Blocks` holds disk blocks and the words in them, `Params` shared sizes, `ProcModes` the states of a
process. `Seals` holds four predicates that keep the definitions of large invariants and of long
descriptions of a step out of the proofs that only pass them on.

A panic of the kernel is an outcome of the model (a result or a state), never a precondition.
Where a panic or a failure can happen, the contracts say when, or that it cannot; where they give
only the reasons for which it may happen, "Left out" says so.
Memory that the code updates in place is a field of a class, except where "Left out" says
otherwise. Sections of code under one lock are atomic steps.

Some promises hold of the code only under a condition. The code is kept as it is, and the
condition is exact.

- `log_write` tests for a full log before it looks for the block among those recorded, so
  absorbing a block can panic. `StorageProof.ReservationsHold`: an operation meets the panic if
  and only if the log is full, which needs every budget spent. `FullLog.AbsorbingCanPanic` gives
  such a run.
- `pipewrite` returns without a wakeup when its process is killed after storing bytes.
  `Pipe.Pipe.Write`: a section leaves a sleeping reader with no reason to sleep if and only if one
  is asleep and the writer is killed midway, a condition on the pipe and the call.
  `Pipe.StuckReader` gives such a run.
- The buffer cache shows the last contents of every block as long as no caller gives up the last
  reference to contents that the disk lacks, which a failed `copyin` in `writei` does.
  `BufferCache.Cache.Brelse` and `BufferCache.Cache.Bunpin`: the cache stays sound if and only if
  that is not so. The list itself stays whole for any callers.
- `sbrk` takes an `int`, so `morecore` can ask for less than it goes on to use.
  `Heap.Heap.Malloc`: this happens if and only if no free block fits and the units needed take
  2^31 bytes or more. `Heap.NothingAsked` gives such a request.
- `iput` lets go of the table while it frees an inode, and again before it drops its reference.
  `InodeTableLaws.FreedIsUnreferenced`: the inode cleared on the disk has no other reference if and
  only if no reference that came meanwhile is left. `InodeTableLaws.LeftWithoutLinks`: an inode
  without links loses its last reference without being freed only if its entry was locked again in
  between. `InodeTableLaws.FreedWhileReferenced` and `InodeTableLaws.LeftBehind` give such runs.
- A free slot of the process table has pid 0, so `kill(0)` marks it, and `allocproc` does not clear
  the mark. `ExitWaitFlow.KillsFollow`: a process is killed if and only if `kill` was called with
  its pid, or its slot was so marked when `fork` took it. `ExitWaitRuns.KilledAtBirth` gives such a
  run.
- `wait` looks whether its caller is killed before it takes the lock to sleep.
  `ExitWaitFlow.SleepsThoughKilled`: a process asleep in `wait` is killed if and only if `kill` came
  in between. `ExitWaitRuns.AsleepThoughKilled` gives such a run.
- `kalloc` writes a reference count also when there is no page. `Kalloc.IndexZero` shows that the
  write is outside the managed pages.

## Model

| member | source | states |
|---|---|---|
| `RedoLog.PutHead` | kernel/log.c:101-115 | what write_head leaves in the header block is read back as exactly the same list of block numbers |
| `RedoLog.InstalledTarget` | kernel/log.c:66-84 | after installing k blocks, the home of each of them holds its log copy |
| `RedoLog.InstalledElsewhere` | kernel/log.c:66-84 | installing changes no block that is not a target |
| `RedoLog.InstalledKeepsLog` | kernel/log.c:66-84 | installing touches neither the header nor the log copies, so recovery may start over |
| `RedoLog.Recovered` | kernel/log.c:117-124 | a recovered disk has an empty header and can be recovered again |
| `RedoLog.InstallAfterPartialInstall` | kernel/log.c:66-84 | an installation cut short and then done in full gives what one full installation gives |
| `RedoLog.RecoveryStartsOver` | kernel/log.c:117-124 | recovery cut after any number of block writes and run again gives the same disk as an undisturbed recovery |
| `RedoLog.RecoverySurvivesCrashes` | kernel/log.c:117-124 | the same for any number of further crashes, each at any point of recovery |
| `RedoLog.HeadedRecovers` | kernel/log.c:86-124 | once header and log copies are on disk, recovery installs exactly the logged contents and keeps all other homes |
| `RedoLog.CrashBeforeHeader` | kernel/log.c:178-204 | crash atomicity: before the first write_head lands, every crash point leads, through any interrupted recoveries, to all homes as before |
| `RedoLog.CrashAfterHeader` | kernel/log.c:178-204 | crash atomicity: from the first write_head on, every crash point leads to all homes as after the transaction |
| `Log.FillHeader` | kernel/log.c:101-115 | the copy loop of write_head builds the header block of the specification |
| `Log.Log.constructor` | kernel/log.c:53-60 | a mounted log is empty and the cache shows the disk; the machine will make the given number of block writes |
| `Log.Log.WriteLog` | kernel/log.c:178-192 | after its k-th block write the disk is the specified one with k blocks logged; homes are untouched, also if it is cut short |
| `Log.Log.WriteHead` | kernel/log.c:101-115 | one block write, of the header that describes lh |
| `Log.Log.ReadHead` | kernel/log.c:86-98 | lh becomes the list of targets in the on-disk header |
| `Log.Log.InstallTrans` | kernel/log.c:66-84 | each single write leaves the specified partial installation; unless recovering, exactly the installed blocks are unpinned |
| `Log.Log.InstallOne` | kernel/log.c:71-83 | one round writes one home from its log copy, which leaves the next partial installation |
| `Log.Log.RecoverFromLog` | kernel/log.c:117-124 | ends with the recovered disk and an empty log, and every disk state on the way recovers to the same |
| `Log.Log.LogTransaction` | kernel/log.c:178-199 | every disk state before the header write recovers to the homes as before, and the one after it to the homes as after |
| `Log.Log.InstallTransaction` | kernel/log.c:66-84 | every disk state from the header write on recovers to the homes as after the transaction |
| `Log.Log.InstallAll` | kernel/log.c:66-84 | the whole installation, cut short exactly if the machine stops within it; every disk state on the way recovers to the same |
| `Log.Log.EraseLog` | kernel/log.c:201-202 | the empty header is written, unless the machine stops; both disks recover to the same |
| `Log.Log.Commit` | kernel/log.c:194-204 | cut short exactly if the machine stops before its last block write; every block write leaves a disk of the atomic trace, and at the end the homes hold the cached contents and the log is empty |
| `Log.Log.TryBeginOp` | kernel/log.c:126-143 | an operation is admitted exactly if no commit is under way and the reservation for one more fits |
| `Log.Log.LogWrite` | kernel/log.c:215-236 | both panics exactly when the code reaches them; otherwise the block is recorded once and pinned |
| `Log.Log.EndOp` | kernel/log.c:145-176 | while others are in progress, and while a commit is under way, nothing but the count changes; the last one out commits, and ends with nothing recorded, nothing pinned and no commit under way; it is cut short exactly if the machine stops within the commit, and every disk state on the way recovers to all before or all after |
| `Log.Log.Edit` | kernel/fs.c:545-549 | a change of a buffer within an operation shows in the cache only |
| `LogRuns.Step` | kernel/log.c:126-236 | one call of begin_op, log_write or end_op, or one change of a buffer, answers as the list of the calls before it says |
| `LogRuns.StepBegin` | kernel/log.c:126-143 | begin_op: let in exactly if the blocks recorded since the last commit and the operations in progress leave room |
| `LogRuns.StepLogWrite` | kernel/log.c:215-236 | log_write: recorded, absorbed or panicking as the blocks recorded since the last commit say |
| `LogRuns.StepEnd` | kernel/log.c:145-176 | end_op: commits exactly if it is the last one out; then the disk holds the latest contents of every recorded block |
| `LogRuns.Run` | kernel/log.c:53-236 | from the mount, over any calls and until the machine stops: every call answers as the calls before it say, no call finds a commit under way, the cache shows the last change of every block, and the disk holds what was last changed before a commit |
| `Log.ReinstalledHomes` | kernel/log.c:66-84 | copying logged blocks over a cache that shows them changes nothing |
| `BufferCache.UnlinkIsLinked` | kernel/bio.c:116-137 | unlinking a buffer leaves one doubly linked ring over the others |
| `BufferCache.LinkFirstIsLinked` | kernel/bio.c:36-53 | linking a buffer after the head gives one ring with it in front |
| `BufferCache.MovingIsLinked` | kernel/bio.c:116-137 | the six link updates put the buffer in front of one ring over the same buffers |
| `BufferCache.MovingIsValid` | kernel/bio.c:116-137 | they keep all that the cache keeps: the ring of all buffers, its order by recency, one buffer per block, and soundness in both directions |
| `BufferCache.MovingIsByRecency` | kernel/bio.c:116-137 | the ring stays sorted by the time of the last move to the front |
| `BufferCache.RecyclingIsCoherent` | kernel/bio.c:75-86 | giving an unused buffer to another block changes nothing that the cache shows |
| `BufferCache.OneBuffer` | kernel/bio.c:58-151 | a change to one buffer affects no other block |
| `BufferCache.CountingIsCoherent` | kernel/bio.c:114-151 | a change of count or lock keeps the cache sound exactly if it gives up no last reference to contents that the disk lacks and leaves no locked buffer without a reference |
| `BufferCache.FillingIsCoherent` | kernel/bio.c:91-103 | a buffer that is not valid is filled with the last contents left for its block |
| `BufferCache.Cache.constructor` | kernel/bio.c:36-53 | binit builds one ring of all NBUF buffers, all unused |
| `BufferCache.Cache.FindCached` | kernel/bio.c:65-73 | finds the buffer of the block if there is one |
| `BufferCache.Cache.FindUnused` | kernel/bio.c:75-86 | finds the unused buffer whose last move to the front is oldest |
| `BufferCache.Cache.Bget` | kernel/bio.c:58-89 | a hit counts one more reference; a miss recycles the least recently used unused buffer; the panic happens exactly if the block is not cached and all buffers are in use |
| `BufferCache.Cache.Recycle` | kernel/bio.c:75-86 | an unused buffer is given to a block that no buffer holds; the cache stays sound |
| `BufferCache.Cache.Acquire` | kernel/bio.c:84-84 | the sleep lock is taken exactly if it is free |
| `BufferCache.Cache.LockAndFill` | kernel/bio.c:91-103 | whoever gets the lock finds the last contents left for the block; otherwise nothing changes |
| `BufferCache.Cache.Bread` | kernel/bio.c:91-103 | counts one reference; the caller has the lock, and the last contents left for the block, exactly if the lock was free; no other block is affected |
| `BufferCache.Cache.FillIn` | kernel/bio.c:98-101 | a buffer that is not valid takes the contents of its block on the disk; the cache stays sound |
| `BufferCache.Cache.Store` | kernel/bio.c:58-151 | a holder that changes the data changes what the cache shows for that block only |
| `BufferCache.Cache.Bwrite` | kernel/bio.c:105-112 | the disk takes the contents shown for the block, in one block write |
| `BufferCache.Cache.Brelse` | kernel/bio.c:114-137 | for any caller with a reference: the panic exactly without the lock; otherwise reference and lock go, and at zero the buffer becomes the most recent; the cache stays sound exactly if contents that the disk lacks are not given up |
| `BufferCache.Cache.MoveToFront` | kernel/bio.c:126-134 | for any caller: the buffer in front of one ring, nothing but links changed |
| `BufferCache.Cache.Bpin` | kernel/bio.c:139-144 | for any caller: one more reference, nothing else; a sound cache stays sound |
| `BufferCache.Cache.Bunpin` | kernel/bio.c:146-151 | for any caller with a reference: one less, nothing else; the cache stays sound exactly if the reference may be given up |
| `BufferCache.Step` | kernel/bio.c:36-151 | one request by any caller: the list stays whole, and only the least recently used unused buffer comes to hold another block |
| `BufferCache.Run` | kernel/bio.c:36-151 | over any requests, from the ring of unused buffers that binit leaves, the links form one ring of all buffers, no block is in two buffers, every request has counted, locked, shown and released what it asked for and nothing else, and every buffer that came to hold another block was the unused one whose last move to the front was oldest |
| `Storage.UnusedUpdate` | kernel/log.c:126-143 | what changing the count of one operation does to the sum of unused budgets |
| `StorageProof.RecycleKeeps` | kernel/bio.c:75-86 | bget never takes away a pinned or unwritten buffer |
| `StorageProof.GetHitKeeps` | kernel/bio.c:65-73 | a further reference keeps the invariant |
| `StorageProof.FillKeeps` | kernel/bio.c:98-101 | reading the disk into a buffer keeps it: the block was not cached, so the disk holds its last contents |
| `StorageProof.EditKeeps` | kernel/fs.c:545-549 | changing a held buffer within an operation keeps the invariant; that the change is not lost is stated over the actions, in StorageHistory |
| `StorageProof.PutKeeps` | kernel/bio.c:124-136 | releasing a buffer keeps it |
| `StorageProof.LogWriteNewKeeps` | kernel/log.c:215-236 | recording a new block keeps reservation, pins and crash invariant |
| `StorageProof.LogWriteAbsorbedKeeps` | kernel/log.c:215-236 | absorbing keeps them as well |
| `StorageProof.BeginOpKeeps` | kernel/log.c:126-143 | admitting an operation keeps the reservation |
| `StorageProof.EndOpKeeps` | kernel/log.c:145-176 | leaving, with or without starting the commit, keeps the invariant |
| `StorageProof.CopyToLogKeeps` | kernel/log.c:178-192 | each block write of write_log keeps the invariant |
| `StorageProof.WriteHeadKeeps` | kernel/log.c:194-204 | the header write moves the crash point to the committed moment and keeps the invariant |
| `StorageProof.InstallKeeps` | kernel/log.c:66-84 | each home write keeps the invariant; the buffer is unpinned only after it |
| `StorageProof.UnpinKeeps` | kernel/log.c:79-80 | unpinning after the home write keeps it |
| `StorageProof.ClearHeadKeeps` | kernel/log.c:194-204 | erasing the header keeps the invariant |
| `StorageProof.FinishKeeps` | kernel/log.c:167-175 | the end of the commit keeps it |
| `StorageProof.CrashKeeps` | kernel/log.c:53-63 | a crash at any moment, followed by the next mount, keeps the invariant |
| `StorageProof.BootedIsFine` | kernel/log.c:53-63 | the state after mounting any recoverable disk satisfies the invariant |
| `StorageProof.StepKeeps` | kernel/log.c:66-236 | every step of processes, cache, commit and crash keeps the invariant |
| `StorageProof.RunKeeps` | kernel/log.c:66-236 | the invariant holds at every moment of every run |
| `StorageProof.CrashSafe` | kernel/log.c:66-204 | in every state of the invariant, interrupted recoveries end with the homes of the recorded quiet moment |
| `StorageProof.QuietMomentsAreReal` | kernel/log.c:145-176 | each recorded quiet moment is a moment of the run when no operation was in progress |
| `StorageProof.ContentsAreCrashSafe` | kernel/log.c:66-236 | wherever a run is cut and however often recovery is interrupted, the homes are the contents of a moment of the run with no operation in progress, and not of a moment before the end of any transaction whose header had been written |
| `StorageProof.CommitsAreDurable` | kernel/log.c:194-204 | after a header write the recorded moment that a crash leads back to is never again an earlier one |
| `StorageProof.MomentIsLate` | kernel/log.c:145-204 | the moment that a crash leads back to comes after the end of every transaction whose header had been written |
| `StorageHistory.UsersFollow` | kernel/bio.c:58-137 | whether a process uses a buffer, and for which block, is what its own bget and brelse calls say |
| `StorageHistory.LocksFollow` | kernel/bio.c:58-137 | who has a buffer locked is what the acquiresleep and releasesleep calls say |
| `StorageHistory.HeldIsWanted` | kernel/bio.c:58-103 | a locked buffer holds the block that its holder asked bget for |
| `StorageHistory.OpsFollow` | kernel/log.c:126-176 | who is in an operation is what the begin_op and end_op calls say |
| `StorageHistory.QuietIsIdle` | kernel/log.c:126-176 | a moment has no operation in progress exactly if every begin_op before it has its end_op |
| `StorageHistory.RecordsFollow` | kernel/log.c:215-236 | the blocks recorded are those of the log_write calls since the last commit or crash |
| `StorageHistory.DirtyFollows` | kernel/log.c:206-236 | the buffers that may not be released are those changed since their last log_write |
| `StorageHistory.CommitFollows` | kernel/log.c:145-204 | the commit under way, its process and the number of blocks copied or installed are what the actions say: it begins with the end_op of the last operation |
| `StorageHistory.ContentsFollow` | kernel/fs.c:545-549 | the contents of every home block are those of the last change made to it by an action of the run, or, after a crash, those that recovery found; so no change is lost and none is made up |
| `StorageHistory.BreadShowsLatest` | kernel/bio.c:58-103 | cache transparency: in every run whoever has locked a buffer asked for its block, finds in it what the actions of the run last left there, and no other buffer shows the block |
| `StorageHistory.EveryRunIsCrashSafe` | kernel/log.c:66-236 | wherever a run is cut and however often recovery is interrupted, every home block holds what the actions up to one moment of the run last left in it; no operation is in progress at that moment, and it is not before the last action of any transaction whose header had been written |
| `StorageProof.ReservationsHold` | kernel/log.c:126-236 | in every run recorded blocks plus unused budgets fit the log, recorded blocks are distinct, a commit means no operation, and the size panic is met exactly on a full log, never within budget |
| `FullLog.AbsorbingCanPanic` | kernel/log.c:215-236 | on every disk with LOGBLOCKS blocks beyond the log there is a run in which log_write of a recorded block meets the size panic |
| `CrashSafeFiles.SameFileSystem` | kernel/fs.c:405-562 | the log area has no part in a file system: disks that differ only there hold the same files |
| `CrashSafeFiles.FilesAreUnique` | kernel/fs.c:221-318 | a disk holds only one file system |
| `CrashSafeFiles.Transact` | kernel/fs.c:405-562 | any operations run by the code of the file system turn whatever files the disk held into those that flat files allow, without a panic |
| `StorageProof.QuietStep` | kernel/log.c:145-204 | while no operation is in progress only the log area of the logical disk changes |
| `CrashSafeFiles.FilesFollow` | kernel/log.c:66-236 | in a run whose transactions are batches of file operations, with crashes anywhere, every quiet moment holds a sound file system with the files that the operations counting then lead to; those of a committed transaction count on |
| `CrashSafeFiles.FilesSurviveCrashes` | kernel/log.c:66-236 | wherever such a run is cut, and however often recovery is interrupted, the disk holds a sound file system with the files that the operations counting at a quiet moment lead to, and that moment is not before the end of a transaction whose header had been written; a transaction adds its batch, and a crash goes back to such a moment |
| `Bitmap.PutBit` | kernel/fs.c:66-106 | setting or clearing bit k changes exactly that bit |
| `Bitmap.Mark` | kernel/fs.c:66-106 | marking a block in the bitmap changes the bit of that block only |
| `Files.OneOwner` | kernel/fs.c:51-106 | a data block is marked used exactly if a slot refers to it, and then exactly one does |
| `Files.Taken` | kernel/fs.c:405-444 | a free block taken by one slot gets that slot as its one owner |
| `Files.GivenUp` | kernel/fs.c:448-476 | a block given up by its slot has no owner and is free |
| `Files.ContentKept` | kernel/fs.c:405-562 | a file whose slots stay put keeps its contents |
| `FileSystem.AllocatedFrame` | kernel/fs.c:66-89 | balloc marks and zeroes exactly the block it returns |
| `FileSystem.FreedFrame` | kernel/fs.c:92-106 | bfree clears exactly the bit of the block |
| `FileSystem.SetSingleRefs` | kernel/fs.c:424-430 | a zeroed block taken as indirect block refers to nothing |
| `FileSystem.DinodeRoundTrip` | kernel/fs.c:221-242 | an inode written by iupdate is read back the same, and the other inodes of the block are untouched |
| `FileSystem.TakeDirect` | kernel/fs.c:411-419 | a direct block taken by bmap: ownership and every other reference kept |
| `FileSystem.TakeSingle` | kernel/fs.c:422-429 | the same for the indirect block |
| `FileSystem.TakeIndirect` | kernel/fs.c:430-441 | the same for a block behind the indirect block |
| `BlockMap.SingleThenBmap` | kernel/fs.c:422-441 | taking the indirect block and then an entry in it is one bmap |
| `FileContent.WriteDataBytes` | kernel/fs.c:539-551 | writing a chunk into a data block changes exactly those bytes of that file |
| `FileContent.ChunkWritten` | kernel/fs.c:539-551 | one round of writei extends the spliced prefix by the chunk and leaves other files alone |
| `FileContent.WritingDone` | kernel/fs.c:553-561 | with the new size the file is the old contents with the written bytes spliced in |
| `FileContent.StoreKeeps` | kernel/fs.c:221-242 | writing an inode block changes no reference, no owner and no contents |
| `FileContent.WriteFinished` | kernel/fs.c:553-561 | after the final iupdate the whole file system is sound and the file is spliced |
| `FileContent.ReadChunk` | kernel/fs.c:505-517 | one round of readi delivers the next bytes of the file |
| `Truncate.CutDirect` | kernel/fs.c:455-460 | freeing a direct block removes exactly that slot and its block |
| `Truncate.CutIndirect` | kernel/fs.c:462-468 | freeing a block behind the indirect block, likewise |
| `Truncate.CutSingle` | kernel/fs.c:469-471 | freeing the indirect block itself removes all its slots |
| `Truncate.AllCut` | kernel/fs.c:448-476 | then exactly the blocks of the file are gone, and the others have kept their contents |
| `FileOps.Fs.constructor` | kernel/fs.c:51-106 | a file system of empty files is sound |
| `FileOps.Fs.Balloc` | kernel/fs.c:64-89 | takes the first free block, marked and zeroed; 0 only if none is free |
| `FileOps.Fs.FirstClear` | kernel/fs.c:73-75 | the inner loop stops at the first clear bit of the bitmap block |
| `FileOps.Fs.Bfree` | kernel/fs.c:91-106 | frees the block; the panic happens exactly on a free block |
| `FileOps.Fs.Bmap` | kernel/fs.c:395-444 | returns the block of the slot, taking only free blocks where there was none, keeping one owner per block and every other slot; the panic happens exactly beyond MAXFILE |
| `FileOps.Fs.BmapDirect` | kernel/fs.c:411-419 | the direct case |
| `FileOps.Fs.BmapFar` | kernel/fs.c:420-444 | the indirect case, with the indirect block allocated if needed |
| `FileOps.Fs.BmapIndirect` | kernel/fs.c:430-441 | the indirect case with the indirect block in place |
| `FileOps.Fs.Iupdate` | kernel/fs.c:221-242 | writes the inode into its place on disk |
| `FileOps.Fs.Readi` | kernel/fs.c:490-519 | returns exactly the slice of the file cut at its end, never allocates and changes nothing |
| `FileOps.Fs.ReadBlock` | kernel/fs.c:505-517 | one round of readi: the next bytes, up to the end of a block, with nothing allocated |
| `FileOps.Fs.ReadBlocks` | kernel/fs.c:505-517 | the loop of readi: the whole slice |
| `FileOps.Fs.Writei` | kernel/fs.c:521-562 | -1 exactly for a bad range; otherwise the first tot bytes are spliced in, no other file is touched, and tot is short only on a full disk |
| `FileOps.Fs.WriteWithin` | kernel/fs.c:539-561 | writei past its tests |
| `FileOps.Fs.WriteBlocks` | kernel/fs.c:539-551 | the loop of writei |
| `FileOps.Fs.WriteBlock` | kernel/fs.c:540-550 | one round of writei: the bytes up to the end of a block are in place, or the disk is full |
| `FileOps.Fs.EndWrite` | kernel/fs.c:553-559 | the new size, if the file grew, and the inode on the disk |
| `FileOps.Fs.Itrunc` | kernel/fs.c:446-476 | frees exactly the blocks of the file, leaves it empty and other files alone, and never reaches the panic of bfree |
| `FileOps.Fs.FreeDirect` | kernel/fs.c:455-460 | the loop over direct blocks |
| `FileOps.Fs.FreeIndirect` | kernel/fs.c:462-472 | the indirect block and what it refers to |
| `FileOps.Fs.FreeSlots` | kernel/fs.c:465-468 | the loop over the entries of the indirect block |
| `FileOps.Fs.FreeSlot` | kernel/fs.c:466-467 | one entry; the block is still marked used, so bfree does not panic |
| `FileRuns.Step` | kernel/fs.c:405-562 | one operation does to the files what it does to flat byte sequences |
| `FileRuns.Run` | kernel/fs.c:405-562 | any sequence of writei, readi and itrunc over many inodes behaves as on flat byte sequences, and no panic is reached |
| `InodeTable.FindEntry` | kernel/fs.c:246-271 | finds the referenced entry of the inode, or else the first entry without references |
| `InodeTable.Iget` | kernel/fs.c:244-278 | each outcome of iget is a step of the table protocol |
| `InodeTableProof.NextKeeps` | kernel/fs.c:199-363 | every step of iget, idup, ilock, iupdate, iunlock, iput and ialloc keeps the invariant |
| `InodeTableProof.DropRefKeeps` | kernel/fs.c:358-362 | the reference goes at last: keeps the invariant |
| `InodeTableProof.ClearOnDiskKeeps` | kernel/fs.c:351-353 | truncating and writing type 0: keeps the invariant |
| `InodeTableProof.BeginFreeKeeps` | kernel/fs.c:341-349 | iput locks the entry of an unlinked inode: keeps the invariant |
| `InodeTableProof.PutRefKeeps` | kernel/fs.c:336-363 | dropping a reference that is not the last to an unlinked inode: keeps the invariant |
| `InodeTableProof.UnlockInodeKeeps` | kernel/fs.c:320-328 | unlocking: keeps the invariant |
| `InodeTableProof.WriteBackKeeps` | kernel/fs.c:221-242 | iupdate: keeps the invariant |
| `InodeTableProof.ChangeKeeps` | kernel/fs.c:221-226 | the holder of the lock changes the inode in memory: keeps the invariant |
| `InodeTableProof.LockInodeKeeps` | kernel/fs.c:291-318 | locking, and reading the inode if the entry is not valid: keeps the invariant |
| `InodeTableProof.DupKeeps` | kernel/fs.c:280-289 | a further reference: keeps the invariant |
| `InodeTableProof.GetPanicsKeeps` | kernel/fs.c:267-268 | no entry is left: keeps the invariant |
| `InodeTableProof.GetRecycledKeeps` | kernel/fs.c:270-276 | an entry without references is given to the inode: keeps the invariant |
| `InodeTableProof.GetFoundKeeps` | kernel/fs.c:257-264 | a further reference to an entry in use: keeps the invariant |
| `InodeTableProof.InvalidateKeeps` | kernel/fs.c:336-363 | the end of freeing in iput keeps it, also if ialloc has taken the number again |
| `InodeTableProof.AllocateKeeps` | kernel/fs.c:195-220 | ialloc keeps it |
| `InodeTableProof.RunKeeps` | kernel/fs.c:199-363 | the invariant holds at every moment of every interleaving |
| `InodeTableLaws.TableIsCache` | kernel/fs.c:199-363 | in every run ref counts the outstanding references, an inode has at most one referenced entry, and an unlocked valid entry equals the inode on disk |
| `InodeTableLaws.PutGoesOn` | kernel/fs.c:336-363 | iput can always go on without waiting: it frees the inode exactly if it has the only reference, the entry is valid and the disk shows no links, and drops the reference otherwise |
| `InodeTableLaws.RefsFollow` | kernel/fs.c:248-290 | the inode behind a reference is the one that its own iget or idup asked for |
| `InodeTableLaws.DiskFollows` | kernel/fs.c:200-241 | the inode on the disk is what the last iupdate, ialloc or freeing iput in the run wrote |
| `InodeTableLaws.HandFollows` | kernel/fs.c:294-320 | who has the inode locked finds what it last left in it, or what the disk held when it was locked |
| `InodeTableLaws.FreedHasNoLinks` | kernel/fs.c:337-366 | an inode becomes free on the disk only by a freeing iput of a reference to it, and the disk shows no links then |
| `InodeTableLaws.FreeingBegan` | kernel/fs.c:341-347 | when iput began to free, it had the only reference; every other reference was taken since, by an iget of the same inode |
| `InodeTableLaws.FreedIsUnreferenced` | kernel/fs.c:341-356 | the inode that iput clears on the disk has no other reference if and only if no reference that came while it was freeing is left; in particular if no iget asked for it meanwhile |
| `InodeTableLaws.FreedWhileReferenced` | kernel/fs.c:341-356 | a run in which iput clears an inode that another process has a reference to |
| `InodeTableLaws.LastPutKeepsLinked` | kernel/fs.c:361-366 | an iput that only drops the last reference to a valid entry leaves an inode with links |
| `InodeTableLaws.DroppingBegan` | kernel/fs.c:356-361 | after iput has cleared the inode its entry is valid exactly if somebody has locked it since |
| `InodeTableLaws.LeftWithoutLinks` | kernel/fs.c:356-366 | the last reference to a valid entry of an inode without links is dropped only by a freeing iput whose entry was locked again between its releasesleep and its decrement |
| `InodeTableLaws.LeftBehind` | kernel/fs.c:337-366 | a run that leaves an inode without links and without references that is not free |
| `InodeTableLaws.PanicsRightly` | kernel/fs.c:294-319 | ilock panics if and only if the inode that the reference asked for is free on the disk as the actions left it; only iget panics besides |
| `InodeTableLaws.IgetPanicsRightly` | kernel/fs.c:248-280 | iget panics only if nobody has a reference to the inode and every entry is in use |
| `InodeTableLaws.OneFrees` | kernel/fs.c:341-361 | no two processes free the same entry at once |
| `InodeTableLaws.LockShowsDisk` | kernel/fs.c:291-318 | ilock shows what the actions of the run last wrote to the disk for the inode that this reference asked for |
| `PageTable.MakePte` | kernel/riscv.h:364-369 | address and flags are read back from an entry; it is a leaf exactly if a permission bit is set |
| `PageTable.PxOf` | kernel/riscv.h:371-374 | the shifted and masked index is the digit of the page number |
| `PageTable.IndicesAreUnique` | kernel/riscv.h:371-380 | distinct pages below MAXVA have distinct index triples (Sv39) |
| `PageTable.LookupIsAbs` | kernel/vm.c:85-115 | the three-level look-up in memory finds exactly what the abstract map says |
| `PageTable.TreeFrame` | kernel/vm.c:85-115 | writes outside its pages do not disturb a page table |
| `PageTable.AddNodeOk` | kernel/vm.c:103-112 | linking a zeroed page in as a table page keeps the tree and adds no translation |
| `PageTable.LeafSetOk` | kernel/vm.c:163-167 | setting or clearing a leaf entry changes that translation only |
| `Vm.Kalloc` | kernel/kalloc.c:179-213 | some free page, filled with junk; 0 exactly if none is free |
| `Vm.Kfree` | kernel/kalloc.c:136-177 | the page becomes free; the panic happens exactly outside the managed pages |
| `Vm.Descend` | kernel/vm.c:103-112 | one level of walk, adding at most one table page |
| `Vm.Walk` | kernel/vm.c:85-115 | finds the slot of the page, keeps all translations, panics exactly from MAXVA on, and fails to add table pages only if at most one page was free |
| `Vm.MapRangeAt` | kernel/vm.c:140-174 | a mapped range, page by page: exactly its pages change |
| `Vm.MapOne` | kernel/vm.c:160-173 | panics exactly on a page already mapped or out of range |
| `Vm.MapRun` | kernel/vm.c:160-173 | the loop, also when it stops half-way |
| `Vm.Mappages` | kernel/vm.c:140-174 | on success exactly the range is mapped and every other translation kept; each panic and the failure have their stated reason |
| `FreeWalk.Freewalk` | kernel/vm.c:260-278 | panics exactly if a leaf is left; otherwise exactly the pages of the table become free |
| `UserMemory.MapFresh` | kernel/vm.c:224-237 | a fresh page with the given contents is mapped, or everything is given back; it fails only with at most two pages free |
| `UserMemory.UnmapOne` | kernel/vm.c:201-211 | one round of uvmunmap |
| `UserMemory.Uvmunmap` | kernel/vm.c:189-212 | removes exactly the range, frees exactly its pages if asked, keeps all other translations and data; panics exactly if unaligned |
| `UserMemory.Uvmdealloc` | kernel/vm.c:242-258 | removes exactly the pages between the two sizes |
| `UserMemory.Uvmalloc` | kernel/vm.c:214-240 | adds exactly zeroed pages up to the new size, or gives everything back; it fails only if fewer than three pages per new page were free |
| `UserMemory.GrowRun` | kernel/vm.c:222-238 | the loop of uvmalloc with its retreat |
| `UserMemory.GrowRound` | kernel/vm.c:225-238 | one round of uvmalloc: a zeroed page more, or everything taken back, or the panic on a mapped page |
| `UserMemory.UndoGrow` | kernel/vm.c:228-236 | the retreat removes exactly what was added |
| `UserMemory.AddedThenUnmapped` | kernel/vm.c:214-258 | unmapping a range takes back what was added in it |
| `UserMemory.UnmappedIsRestored` | kernel/vm.c:214-258 | and then the space is as it was, apart from table pages |
| `UserMemory.OtherSpaceKept` | kernel/vm.c:140-324 | what happens to one address space leaves every separate one alone |
| `ProcessMemory.Uvmcopy` | kernel/vm.c:290-324 | the child gets exactly the pages of the parent below sz, with equal flags and bytes in fresh pages, or loses what was copied |
| `ProcessMemory.CopyPage` | kernel/vm.c:304-317 | one round of uvmcopy, holes skipped |
| `ProcessMemory.CopyRun` | kernel/vm.c:304-318 | the loop of uvmcopy, also when it stops half-way |
| `UserMemory.ReadPage` | kernel/vm.c:305-310 | a hole, or the flags and bytes of the page |
| `ProcessMemory.UndoCopy` | kernel/vm.c:320-323 | the retreat removes exactly what was copied |
| `ProcessMemory.Uvmfree` | kernel/vm.c:280-288 | gives everything back, and panics exactly if a page at or above sz is mapped |
| `ProcPages.Uvmcreate` | kernel/vm.c:176-187 | an empty table in one page; 0 exactly if none is free |
| `ProcPages.MapHigh` | kernel/proc.c:201-218 | mapping one page above user memory changes that translation only |
| `ProcPages.ProcPagetable` | kernel/proc.c:189-221 | exactly trampoline and trapframe are mapped, or everything is given back |
| `ProcPages.DropTable` | kernel/proc.c:213-218 | the retreat gives back the whole table |
| `ProcPages.OtherOwnerKept` | kernel/proc.c:109-231 | what one process does to its pages leaves every other process alone |
| `ProcCalls.AllocProc` | kernel/proc.c:105-165 | trapframe and table of a new process, or everything given back, and that only with at most five pages free |
| `ProcCalls.ProcFreePagetable` | kernel/proc.c:223-231 | gives everything back, and panics exactly if something else than user pages below sz, trapframe and trampoline is mapped |
| `ProcCalls.FreeProc` | kernel/proc.c:167-187 | every page of the process becomes free, without a panic |
| `ProcCalls.CopyMemory` | kernel/proc.c:286-292 | the child takes the pages of the parent and its size, or nothing |
| `ProcCalls.TrapframeCopy` | kernel/proc.c:294-298 | the copied trapframe differs in a0 only, which is 0 |
| `ProcCalls.CopyIsFork` | kernel/proc.c:286-298 | what the copy put into the child is what the parent had |
| `ProcCalls.Kfork` | kernel/proc.c:272-298 | the child has exactly the pages of the parent below sz, with equal bytes and flags, in pages of its own, and a trapframe that differs in a0 only; on failure every page taken is free again, and few pages were free |
| `MemoryRuns.Growproc` | kernel/proc.c:249-270 | growing adds zeroed pages or changes nothing, with the reason; shrinking, and asking to shrink below zero, always succeeds; the process then sees exactly its memory resized |
| `MemoryRuns.Grow` | kernel/proc.c:258-264 | the growing case |
| `MemoryRuns.Shrink` | kernel/proc.c:265-267 | the shrinking case, also below zero |
| `MemoryRuns.SysSbrk` | kernel/sysproc.c:39-65 | the old size, or -1 exactly with nothing changed and for one of two reasons; the process then sees exactly its memory resized, at once or lazily |
| `MemoryRuns.GrowLazily` | kernel/sysproc.c:54-62 | lazy growth changes the size only, and fails exactly beyond TRAPFRAME |
| `FlatMemory.FlatKept` | kernel/vm.c:98-486 | who keeps its pages sees the same memory |
| `FlatMemory.ExtendedFlat` | kernel/vm.c:208-240 | adding pages to a space adds exactly those to what the process sees |
| `FlatMemory.UnmappedFlat` | kernel/vm.c:242-258 | unmapping pages takes exactly those from what the process sees |
| `FlatMemory.RestoredFlat` | kernel/vm.c:228-236 | an error path leaves what the process sees |
| `FlatMemory.ForkedFlat` | kernel/proc.c:272-298 | the child of a fork sees what the parent sees, except that a0 is 0 |
| `MemoryRuns.Ismapped` | kernel/vm.c:475-486 | true exactly if the page is mapped; the panic of walk exactly from MAXVA on |
| `MemoryRuns.Vmfault` | kernel/vm.c:448-473 | a zeroed page at the address, or nothing changed, with the reason; the process then sees exactly its memory with that page besides |
| `MemoryRuns.SwapIsStep` | kernel/proc.c:109-298 | what one process does to its own pages keeps the invariant of the whole and the memory of all others |
| `MemoryRuns.Step` | kernel/vm.c:145-288 | any call at any time keeps the invariant without a panic |
| `MemoryRuns.Birth` | kernel/proc.c:105-165 | a first process, or nothing |
| `MemoryRuns.ForkStep` | kernel/proc.c:272-298 | fork as a step of the whole |
| `MemoryRuns.ExitStep` | kernel/proc.c:167-187 | the end of a process as a step of the whole |
| `MemoryRuns.SbrkStep` | kernel/sysproc.c:39-65 | sbrk as a step of the whole |
| `MemoryRuns.FaultStep` | kernel/vm.c:448-473 | a fault as a step of the whole |
| `MemoryRuns.StoreStep` | kernel/vm.c:351-366 | a store through a writable user page changes that page of that process, and nothing that any process sees otherwise |
| `MemoryRuns.FindPage` | kernel/vm.c:121-138 | the page behind a user address, or none |
| `MemoryRuns.Run` | kernel/vm.c:145-288 | over any calls of any processes the processes and the free pages share out memory, nothing panics, and each process sees the flat memory that the calls lead to: its size, its pages with their contents, its saved registers; a fork gives a copy, a store shows in the one process only |
| `Kalloc.Decremented` | kernel/kalloc.c:106-117 | dropping a reference keeps the invariant; the last one makes the page due for pushing |
| `Kalloc.Pushed` | kernel/kalloc.c:166-176 | pushing a page keeps list, count and references in order |
| `Kalloc.Popped` | kernel/kalloc.c:186-195 | popping a page, likewise |
| `Kalloc.Counted` | kernel/kalloc.c:201-203 | setting the count of a popped page to 1 gives it one holder |
| `Kalloc.Incremented` | kernel/kalloc.c:95-104 | sharing a page adds one holder |
| `Kalloc.IndexZero` | kernel/kalloc.c:201-203 | the write to index 0 when memory is out disturbs no managed page |
| `Kalloc.Born` | kernel/kalloc.c:125-132 | setting the count to 1 gives freerange the page to free |
| `Kalloc.Scribbled` | kernel/kalloc.c:161-198 | filling a page that is not free with junk disturbs no link |
| `Kalloc.Allocator.constructor` | kernel/kalloc.c:70-81 | an allocator with no pages yet |
| `Kalloc.Allocator.KrefDec` | kernel/kalloc.c:106-117 | the result is positive exactly if holders remain |
| `Kalloc.Allocator.PushFree` | kernel/kalloc.c:166-176 | the page becomes the head of the list and the count grows by one |
| `Kalloc.Allocator.PopFree` | kernel/kalloc.c:186-195 | the head of the list, or null exactly if it is empty |
| `Kalloc.Allocator.SetRef` | kernel/kalloc.c:201-203 | the popped page gets its one holder; with null nothing managed changes |
| `Kalloc.Allocator.KrefInc` | kernel/kalloc.c:95-104 | one more holder of the same page |
| `Kalloc.Allocator.Scribble` | kernel/kalloc.c:161-198 | the junk fill changes the first word of that page only |
| `Kalloc.Allocator.Kfree` | kernel/kalloc.c:136-177 | the page goes to the list exactly with its last holder; the panic happens exactly outside the managed pages |
| `Kalloc.Allocator.Kalloc` | kernel/kalloc.c:179-213 | the first free page with the caller as only holder, or null exactly if there is none |
| `Kalloc.Allocator.Freerange` | kernel/kalloc.c:119-134 | every page of the range ends on the list |
| `Kalloc.Run` | kernel/kalloc.c:95-213 | over any sections of any callers the counts, the free list and the first words of all pages are those that the sections lead to, one after the other |
| `Kalloc.Section` | kernel/kalloc.c:70-198 | one locked section does to counts, list and first words what its call says |
| `Umalloc.BlocksAreDisjoint` | user/umalloc.c:24-90 | no unit lies in two blocks, free or live |
| `Umalloc.FreeOk` | user/umalloc.c:24-44 | linking and joining a freed block keeps one address-ordered ring of disjoint, non-adjacent blocks |
| `Umalloc.FreeCovered` | user/umalloc.c:24-44 | and conserves units |
| `Umalloc.CarveOk` | user/umalloc.c:78-84 | cutting a block off the end of a free one keeps the heap in order |
| `Umalloc.TakeOk` | user/umalloc.c:76-84 | so does taking a whole free block |
| `Umalloc.RegionOk` | user/umalloc.c:46-61 | a region from sbrk enters as a block about to be freed |
| `Heap.Heap.constructor` | user/umalloc.c:18-22 | an empty heap |
| `Heap.Heap.Search` | user/umalloc.c:30-32 | the search of free ends, at the header before the block |
| `Heap.Heap.Link` | user/umalloc.c:33-43 | the pointer and size updates of free |
| `Heap.Heap.Free` | user/umalloc.c:24-44 | the block is no longer live, no unit is lost, and a free block at least as large exists |
| `Heap.CutIsShort` | user/umalloc.c:54-54 | the argument of sbrk is the bytes needed exactly below 2^31, and otherwise less |
| `Heap.NothingAsked` | user/umalloc.c:54-69 | for malloc(0xFFFFFFF0) sbrk is asked for no bytes |
| `Heap.Heap.Morecore` | user/umalloc.c:46-61 | a failure changes nothing; otherwise the heap has the new units besides and a block that is large enough; the request is cut exactly from 2^31 bytes on |
| `Heap.Heap.Malloc` | user/umalloc.c:63-90 | the first block that fits, from freep on, or one made by sbrk, or null; which of them is exact, and so is the case of a size that int cannot hold; the block is new, of exactly the units needed, and no unit is lost |
| `Heap.Heap.FirstRing` | user/umalloc.c:70-73 | base becomes a ring of its own |
| `Heap.Heap.FirstFit` | user/umalloc.c:74-89 | the search ends, also after morecore has joined the new block with the one at freep |
| `Heap.Heap.Take` | user/umalloc.c:75-85 | a live block of exactly the units asked for |
| `Heap.Heap.TakeWhole` | user/umalloc.c:76-84 | unlinks the block |
| `Heap.Heap.TakePart` | user/umalloc.c:78-84 | cuts the block in two |
| `Heap.Run` | user/umalloc.c:24-90 | over any requests the blocks handed out are those that the requests and the answers leave, with the sizes asked for; a request gets null only if sbrk fails; no block is handed out twice, and memory is not lost |
| `Heap.Step` | user/umalloc.c:24-90 | one request: what was handed out before stays, and one block more or less is out |
| `ExitWaitProof.FallAsleepKeeps` | kernel/proc.c:637-664 | going to sleep in kwait keeps the invariant: no exit slipped in between the scan and the sleep |
| `ExitWaitProof.BecomeZombieKeeps` | kernel/proc.c:338-381 | turning ZOMBIE after the wakeup, with wait_lock still held, keeps it |
| `ExitWaitProof.GiveToInitKeeps` | kernel/proc.c:323-336 | handing a child to init keeps it |
| `ExitWaitProof.WakeVisitKeeps` | kernel/proc.c:666-682 | waking the parent keeps it |
| `ExitWaitProof.ReapKeeps` | kernel/proc.c:403-416 | freeing a ZOMBIE keeps it |
| `ExitWaitProof.GivenUpKeeps` | kernel/proc.c:406-430 | kwait returning -1: keeps the invariant |
| `ExitWaitProof.StartChildKeeps` | kernel/proc.c:312-318 | setting the parent and then RUNNABLE keeps it |
| `ExitWaitProof.FailForkKeeps` | kernel/proc.c:281-291 | a fork that fails gives its slot back: keeps the invariant |
| `ExitWaitProof.KillKeeps` | kernel/proc.c:684-706 | kill makes a sleeper RUNNABLE: keeps the invariant |
| `ExitWaitProof.WakeElsewhereKeeps` | kernel/proc.c:666-682 | waking from another channel: keeps the invariant |
| `ExitWaitProof.SleepElsewhereKeeps` | kernel/proc.c:637-664 | sleeping on another channel: keeps the invariant |
| `ExitWaitProof.YieldKeeps` | kernel/proc.c:587-596 | yield: keeps the invariant |
| `ExitWaitProof.DispatchKeeps` | kernel/proc.c:488-506 | the scheduler runs it: keeps the invariant |
| `ExitWaitProof.SwitchOutKeeps` | kernel/proc.c:559-585 | the CPU leaves the process: keeps the invariant |
| `ExitWaitProof.SleepUnlockKeeps` | kernel/proc.c:650-650 | sleep lets wait_lock go: keeps the invariant |
| `ExitWaitProof.SleepLockKeeps` | kernel/proc.c:648-649 | sleep takes p->lock: keeps the invariant |
| `ExitWaitProof.ScanEndKeeps` | kernel/proc.c:421-428 | the scan ends without a ZOMBIE child: keeps the invariant; that there is a child to wait for is stated in ExitWaitLaws |
| `ExitWaitProof.ScanSlotKeeps` | kernel/proc.c:397-419 | passing a slot keeps the invariant; that no child is passed over is stated over the parent fields, in ExitWaitLaws |
| `ExitWaitProof.BeginWaitKeeps` | kernel/proc.c:392-396 | entering kwait: keeps the invariant |
| `ExitWaitProof.WakePassKeeps` | kernel/proc.c:666-682 | the wakeup of the parent passing a slot: keeps the invariant |
| `ExitWaitProof.ReWakeVisitKeeps` | kernel/proc.c:666-682 | reparent's wakeup waking init: keeps the invariant |
| `ExitWaitProof.ReWakePassKeeps` | kernel/proc.c:330-334 | reparent's wakeup passing a slot: keeps the invariant |
| `ExitWaitProof.PassSlotKeeps` | kernel/proc.c:330-331 | a slot that is not a child: keeps the invariant |
| `ExitWaitProof.LockForExitKeeps` | kernel/proc.c:363-366 | taking wait_lock in kexit: keeps the invariant |
| `ExitWaitProof.BeginExitKeeps` | kernel/proc.c:342-350 | entering kexit: keeps the invariant |
| `ExitWaitProof.SetParentKeeps` | kernel/proc.c:312-314 | setting the parent: keeps the invariant |
| `ExitWaitProof.TakeSlotKeeps` | kernel/proc.c:105-130 | taking an UNUSED slot in fork: keeps the invariant |
| `ExitWaitProof.NextKeeps` | kernel/proc.c:272-430 | every step of fork, exit, wait, sleep, wakeup, dispatch and kill keeps the invariant |
| `ExitWaitProof.BootIsOk` | kernel/proc.c:233-247 | it holds at boot, with init alone |
| `ExitWaitProof.RunKeeps` | kernel/proc.c:272-430 | the invariant holds at every moment of every interleaving |
| `ExitWaitLaws.NoChildIsLost` | kernel/proc.c:323-430 | no lost wakeup: at every moment of every run, with wait_lock free, a process asleep in wait has no child that is a ZOMBIE |
| `ExitWaitLaws.ParentsAreLive` | kernel/proc.c:323-381 | every started process but init has a parent that has not exited |
| `ExitWaitLaws.ReapedOnce` | kernel/proc.c:383-430 | no two wait calls of a run return the same pid |
| `ExitWaitLaws.ReapingsStay` | kernel/proc.c:383-430 | a status once handed out stays, so no exit is reaped twice |
| `ExitWaitLaws.ScanFollows` | kernel/proc.c:395-422 | at every moment of the scan, kwait has found a child exactly if one of the slots behind it has the caller as its parent |
| `ExitWaitLaws.ParentsStay` | kernel/proc.c:322-340 | while a process holds wait_lock no other process changes a parent field |
| `ExitWaitLaws.NoChildrenIsTrue` | kernel/proc.c:425-429 | wait returns -1 for want of children only if no process has the caller as its parent |
| `ExitWaitLaws.SleepsForAChild` | kernel/proc.c:425-433 | wait goes to sleep only with a child, none of them a ZOMBIE |
| `ExitWaitLaws.ExitBegan` | kernel/proc.c:342-379 | the status of an exiting or ZOMBIE process is the one that this process, under the same pid, gave to exit |
| `ExitWaitLaws.ReapsTheStatus` | kernel/proc.c:397-415 | wait returns the pid of a child of the caller that is off every CPU, with the status that this child gave to exit, and frees its slot |
| `ExitWaitLaws.ForkBegan` | kernel/proc.c:272-282 | the slot of a fork under way is one that this fork found UNUSED, with the pid it drew |
| `ExitWaitLaws.ForkedChildIsReady` | kernel/proc.c:272-320 | fork ends with a RUNNABLE child of the caller in the slot that it found UNUSED, under the pid it drew |
| `ExitWaitLaws.GoesOn` | kernel/proc.c:272-437 | a process within fork, exit or wait has a next step unless it waits for wait_lock or for a p->lock |
| `ExitWaitLaws.LockedGoesOn` | kernel/proc.c:272-437 | who holds its own p->lock has a next step |
| `ExitWaitLaws.NobodyIsStuck` | kernel/proc.c:272-437 | no deadlock: at every moment of every run, for a process within fork, exit or wait that is not asleep, it, or the holder of wait_lock, or the holder of the p->lock in the way, has a next step |
| `ExitWaitFlow.PhasesFollow` | kernel/proc.c:272-437 | at every moment of every run each process is in the middle of what its own calls say: fork and into which slot, exit and with which status, the scan or the sleep of wait, or nothing |
| `ExitWaitFlow.ExitIsFinal` | kernel/proc.c:342-381 | exit does not return: the process stays in it, with its pid and its status, until a wait returns both |
| `ExitWaitFlow.NoSlotIsLeaked` | kernel/proc.c:110-165 | a slot in USED belongs to a fork under way |
| `ExitWaitFlow.WaitLockIsGivenBack` | kernel/proc.c:326-437 | whoever holds wait_lock gives it back after a bounded number of steps of its own, whatever the others do |
| `ExitWaitFlow.KillsFollow` | kernel/proc.c:110-187 | a process is marked as killed if and only if kill was called with its pid, or kill(0) had marked its slot while it was free and fork took it so |
| `ExitWaitFlow.WaitKilledIsTrue` | kernel/proc.c:425-429 | wait gives up as killed only if one of the two is so |
| `ExitWaitFlow.KilledDoesNotSleep` | kernel/proc.c:425-433 | wait goes to sleep only if neither is so |
| `ExitWaitFlow.SleepsThoughKilled` | kernel/proc.c:425-433 | a process asleep in wait is killed if and only if kill came after the end of its scan and before sleep took its p->lock |
| `ExitWaitRuns.AsleepThoughKilled` | kernel/proc.c:425-433 | a run in which a process falls asleep in wait after it has been killed |
| `ExitWaitRuns.KilledAtBirth` | kernel/proc.c:688-706 | a run in which fork makes a child that is killed though nobody has called kill with its pid |
| `SchedulerProof.NewChampionKeeps` | kernel/proc.c:467-484 | a better slot becomes the champion and the lock of the old one is released: keeps the invariant; that the champion is the best is stated over the states of the scan, in SchedulerLaws |
| `SchedulerProof.ScanAgainKeeps` | kernel/proc.c:503-505 | the scheduler is back: keeps the invariant |
| `SchedulerProof.IntrDropKeeps` | kernel/proc.c:666-682 | and lets it go: keeps the invariant |
| `SchedulerProof.IntrTakeKeeps` | kernel/proc.c:666-682 | its wakeup takes a p->lock: keeps the invariant |
| `SchedulerProof.InterruptKeeps` | kernel/proc.c:457-484 | a device interrupts a scan that holds no lock: keeps the invariant |
| `SchedulerProof.DropLockKeeps` | kernel/proc.c:666-682 | and lets it go: keeps the invariant |
| `SchedulerProof.ChangeOtherKeeps` | kernel/proc.c:666-682 | a holder changes state or priority of the process: keeps the invariant |
| `SchedulerProof.TakeLockKeeps` | kernel/proc.c:637-682 | and gets it: keeps the invariant |
| `SchedulerProof.WantLockKeeps` | kernel/proc.c:637-682 | a process asks for another p->lock: keeps the invariant |
| `SchedulerProof.GetGoingKeeps` | kernel/proc.c:598-609 | the process releases its lock and goes on: keeps the invariant |
| `SchedulerProof.StartOverKeeps` | kernel/proc.c:507-512 | a scan without a champion: keeps the invariant |
| `SchedulerProof.PassOverKeeps` | kernel/proc.c:470-483 | letting a loser go keeps the invariant |
| `SchedulerProof.AcquireNextKeeps` | kernel/proc.c:467-468 | locking the next slot of the scan: keeps the invariant |
| `SchedulerProof.SwitchInKeeps` | kernel/proc.c:488-506 | switching to the champion keeps it |
| `SchedulerProof.SwitchOutKeeps` | kernel/proc.c:559-596 | switching back keeps it |
| `SchedulerProof.NextKeeps` | kernel/proc.c:447-514 | every step of any number of CPUs keeps the invariant |
| `SchedulerProof.RunKeeps` | kernel/proc.c:447-514 | the invariant holds at every moment of every interleaving |
| `SchedulerLaws.Looked` | kernel/proc.c:467-484 | at every moment of a scan, every slot behind it was looked at in this scan, and was not RUNNABLE then, or has no higher priority than the champion, and none as high if it comes before it |
| `SchedulerLaws.ChampionWins` | kernel/proc.c:467-506 | the process that a CPU switches to is RUNNABLE, is the only one it holds the lock of, and beats every slot of the table as the scan found it: higher priority, or the same and an earlier slot, or the other not RUNNABLE |
| `SchedulerLaws.IdlesRightly` | kernel/proc.c:507-512 | a CPU runs nothing only if its scan found every slot of the table not RUNNABLE |
| `SchedulerLaws.SchedDoesNotPanic` | kernel/proc.c:568-581 | the panics of sched on the lock, the count of locks held and the state are never met: the process changes to another state than RUNNING with its own lock held and no other |
| `SchedulerLaws.RanksFollow` | kernel/proc.c:448-596 | state and priority of a process change only by the steps that set them |
| `SchedulerLaws.CpuGoesOn` | kernel/proc.c:448-596 | a CPU that waits for no lock has a next step |
| `SchedulerProof.OnOneCpu` | kernel/proc.c:447-596 | no process runs on two CPUs |
| `SchedulerProof.WaitsUpward` | kernel/proc.c:447-514 | whoever is waited for and waits itself, waits for a later slot |
| `SchedulerProof.NoDeadlock` | kernel/proc.c:447-514 | the waits-for relation on p->lock has no cycle |
| `Virtqueue.ChainAdded` | kernel/virtio_disk.c:200-213 | three free descriptors become a chain disjoint from all others |
| `Virtqueue.ChainRemoved` | kernel/virtio_disk.c:184-197 | a chain becomes three free descriptors |
| `Virtqueue.RingPush` | kernel/virtio_disk.c:295-301 | a new ring entry lands beside all unconsumed ones, also when the 16-bit index wraps |
| `Virtqueue.RingPop` | kernel/virtio_disk.c:418-430 | consuming the oldest entry leaves the others in place |
| `Virtqueue.WrapKeepsSlot` | kernel/virtio_disk.c:295-301 | a wrapped index still names the right slot |
| `VirtioDisk.Sizes` | kernel/virtio_disk.c:155-213 | free descriptors plus three per outstanding chain total NUM |
| `VirtioDisk.RoomInRings` | kernel/virtio_disk.c:295-301 | the unconsumed entries of either ring are no more than the outstanding chains, so neither ring is ever full |
| `VirtioDisk.Offering` | kernel/virtio_disk.c:250-301 | publishing a request keeps the protocol (section 2.6 of VIRTIO 1.1) |
| `VirtioDisk.Taking` | kernel/virtio_disk.c:295-301 | the device taking an entry keeps it |
| `VirtioDisk.Finishing` | kernel/virtio_disk.c:400-433 | the device finishing any chain it has keeps it |
| `VirtioDisk.Seeing` | kernel/virtio_disk.c:418-430 | the handler consuming a completion keeps it |
| `VirtioDisk.Dropping` | kernel/virtio_disk.c:307-316 | freeing a finished chain keeps it |
| `VirtioDisk.Driver.constructor` | kernel/virtio_disk.c:62-153 | all descriptors free and both rings empty, at any equal indices |
| `VirtioDisk.Driver.AllocDesc` | kernel/virtio_disk.c:155-166 | the first free descriptor, or -1 exactly if none is free |
| `VirtioDisk.Driver.FreeDesc` | kernel/virtio_disk.c:168-182 | frees a descriptor; the panics happen exactly out of range and on a free one |
| `VirtioDisk.Driver.FreeChain` | kernel/virtio_disk.c:184-197 | ends after exactly the three descriptors of the chain, without a panic |
| `VirtioDisk.Driver.Alloc3Desc` | kernel/virtio_disk.c:199-213 | three distinct free descriptors exactly if there are three; otherwise all are given back |
| `VirtioDisk.Driver.Submit` | kernel/virtio_disk.c:250-305 | a new chain with the request, its buffer marked busy, offered last; sleeps exactly if two chains are outstanding |
| `VirtioDisk.Driver.DeviceTake` | kernel/virtio_disk.c:295-301 | the device finds the requests in the order offered, each as submitted |
| `VirtioDisk.Driver.DeviceFinish` | kernel/virtio_disk.c:415-418 | the device may report its chains in any order |
| `VirtioDisk.Driver.GiveBack` | kernel/virtio_disk.c:168-180 | freeing one descriptor in use changes that descriptor only |
| `VirtioDisk.Driver.IntrStep` | kernel/virtio_disk.c:418-430 | the oldest completion clears exactly the buffer that was submitted with it, which was still busy |
| `VirtioDisk.Driver.Intr` | kernel/virtio_disk.c:400-433 | clears exactly the buffers of all reported chains |
| `VirtioDisk.Driver.Complete` | kernel/virtio_disk.c:307-316 | returns exactly when its own completion was seen, and then frees exactly its chain |
| `VirtioRuns.Do` | kernel/virtio_disk.c:156-433 | one step of a requester, the device or the interrupt handler answers as the queue of requests does |
| `VirtioRuns.Run` | kernel/virtio_disk.c:156-433 | from initialised rings, over any interleaving: requests are accepted while there are descriptors, the device reads each request as it was made, in that order, and reports in any order, the handler wakes the requesters in the order of the reports, and a requester goes on exactly after that; free_desc does not panic |
| `VirtioRuns.EveryRequestIsInOnePlace` | kernel/virtio_disk.c:156-433 | at every moment every request is in one of the four places, once, and there are at most two |
| `VirtioRuns.SomebodyGoesOn` | kernel/virtio_disk.c:156-433 | as long as there is a request, the device, the handler or a requester has something to do |
| `Pipe.TestsAreRight` | kernel/pipe.c:76-134 | the tests for empty and full are right, also across 32-bit wrap-around |
| `Pipe.SlotSurvivesWrap` | kernel/pipe.c:95-122 | a wrapped counter still names the right slot |
| `Pipe.OneMorePending` | kernel/pipe.c:95-95 | storing a byte keeps all pending bytes in place |
| `Pipe.Pipe.constructor` | kernel/pipe.c:22-56 | a fresh pipe is empty and open at both ends |
| `Pipe.Pipe.Put` | kernel/pipe.c:95-95 | the byte is appended to what was written |
| `Pipe.Pipe.Write` | kernel/pipe.c:76-103 | a section of pipewrite stores exactly the bytes up to the first of: the end, a closed read end or a kill, a full pipe, a failed copyin; its outcome is the one for that reason; it leaves a reader asleep for no reason exactly if one is asleep and the writer is killed midway |
| `Pipe.Pipe.StoreBytes` | kernel/pipe.c:83-99 | the loop of pipewrite up to its next sleep or its end: the bytes stored and the reason why it stopped |
| `Pipe.Pipe.Read` | kernel/pipe.c:105-134 | a section of piperead hands out exactly the next pending bytes; it sleeps exactly on an empty pipe with the write end open, unless killed; a failed copyout consumes nothing |
| `Pipe.Pipe.TakeBytes` | kernel/pipe.c:119-130 | the loop of piperead: exactly the next bytes, and failure exactly if the first copyout fails |
| `Pipe.Pipe.Close` | kernel/pipe.c:58-74 | closes one end and wakes the other side; the pipe is freed exactly when both ends are closed |
| `Pipe.Pipe.Kill` | kernel/proc.c:684-706 | kill wakes the process, wherever it sleeps |
| `Pipe.Step` | kernel/pipe.c:58-134 | one locked section leaves the pipe that the section says and takes exactly the next bytes; sleepers keep their reason to sleep exactly if no killed writer returns midway |
| `Pipe.Run` | kernel/pipe.c:58-134 | over any sections, every moment of the pipe follows from the one before, the bytes read are the bytes written, in order, and at most PIPESIZE are under way; every sleeper without a reason is explained |
| `Pipe.StuckReader` | kernel/pipe.c:84-87 | such a run: the reader sleeps on with a byte in the pipe |

## Left out

- RedoLog: a single-block write is atomic; a torn block is not modelled.
- Log: sees the cache through what it shows and what it has pinned. The buffer cache itself is in BufferCache, and both together are in Storage.
- Log.Log.Commit: stops when the machine does, after a given number of block writes, which stands for a crash and also for the panic "bget: no buffers"; that this panic cannot happen is not claimed, because it depends on how many buffers the operations in progress hold.
- LogRuns.Run: the calls come one after the other, each in one piece; in Storage they interleave.
- Storage: a commit is made of steps with one disk write each; the disk driver under it is a separate model, VirtioDisk.
- CrashSafeFiles.FilesSurviveCrashes: a transaction is a batch of file operations, that is, the logical disk at its end is what the code of the file system makes of the disk at its beginning, one operation after another; that inode and buffer locks make concurrent operations come out so, and that each operation keeps to its budget of MAXOPBLOCKS blocks, is not modelled.
- BufferCache.Cache.Brelse: requires a reference to drop, as does BufferCache.Cache.Bunpin; reference counts are unbounded, and the lock has no owner, so holdingsleep is modelled as the lock being held.
- FileOps: works on the logical disk, that is, on what bread shows and log_write records.
- FileOps.Fs.Writei: the copy from user memory succeeds; a copy that fails part-way can leave an unlogged change in a cached block.
- FileOps.Fs.Readi: the copy to user memory succeeds.
- FileOps.Fs.constructor: files start empty; the image that mkfs builds is not modelled.
- FileSystem: type, major, minor and nlink of an inode are 16-bit values that the operations carry along.
- InodeTable: the panics "iget: no inodes" and "ilock: no type" are states of the model; link counts are data, and that directories keep them right is not modelled.
- InodeTableProof.ClearOnDiskKeeps: itrunc, setting the type and iupdate are one step, all under the sleep lock.
- InodeTableProof.UnlockInodeKeeps: the holder has called iupdate after its last change, as the comment on iupdate demands.
- Vm: physical memory and page tables are passed and returned as values, so update in place and aliasing are captured only through the ownership of pages; the free pages are a set, and which page kalloc takes is left open. The linked free list, with its reference counts, is in Kalloc.
- Vm.Kfree: a page has one holder, as nothing in the kernel shares pages yet.
- Vm.Mappages: requires a range of physical addresses that fits an entry and at least one of the permissions R, W and X, as all its callers give.
- UserMemory.Uvmunmap: frees pages only below TRAPFRAME and keeps them only at or above it, as all its callers do.
- Vm.MapRun: a panic or failure is given with its reason and the page at which it came; which of them comes first depends on the table pages already there, and the same holds for Vm.Mappages.
- UserMemory.Uvmdealloc: requires that the old size does not exceed TRAPFRAME, as that of a process.
- UserMemory.Uvmalloc: requires that the new size does not exceed TRAPFRAME, which its caller checks. That it succeeds is promised with three free pages per new page; with fewer it may fail, depending on the table pages already there.
- ProcCalls.Kfork: the memory of fork; files, name and the process table are not part of it.
- MemoryRuns.Vmfault: the flag that tells reads from writes plays no part, as in the code.
- MemoryRuns.Run: exec, which replaces an address space, is not among the calls; fork and the first process may fail for want of pages, and when they do is in ProcCalls; a store writes a whole page.
- Kalloc: the print of the free-page count outside its lock.
- ExitWait: process ids are unbounded; the memory whose lack makes a fork fail is not part of the state; closing files on exit is outside; setkilled, which a process calls on itself before it exits, is not a step; kkill is its visit to the slot that it finds.
- Scheduler: only p->lock counts towards noff; an interrupt during a scan is its wakeup's p->lock sections; fairness is not claimed, since fixed priorities can starve.
- VirtioDisk: the device reports success, memory barriers order as intended, sections under vdisk_lock are atomic, and the loop of alloc3_desc over three descriptors is written out.
- VirtioDisk.Driver.IntrStep: the panic on a failing status, as the device reports success.
- VirtioDisk.Driver.Submit: a buffer has one requester at a time, which the sleep lock of the buffer ensures.
- Pipe.Pipe.Close: reports that the pipe is freed, but a run may go on with it; that nobody does is up to the open files.
- Heap.Heap.Malloc: the model stops where the argument of sbrk is cut, and does not follow what the code then does with memory that it was not given; otherwise sbrk returns a fresh aligned region above all earlier ones, or fails. The bytes in a block are not modelled.
- Boot, assembly, traps and device registers: kernel/start.c, kernel/trap.c, kernel/plic.c, kernel/uart.c, trampoline.S, swtch.S and virtio_disk_init.
- Directories, path names, file descriptors, exec, the console, the shell, user programs and mkfs.
- All messages printed, the disk monitor among them.
- copyin, copyout, copyinstr and walkaddr, and the kernel's own page table.
