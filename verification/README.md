# A verified model of an xv6 kernel with swapping

This project models the parts of the kernel and its user programs whose
behaviour is hard to see from one function at a time, and proves what they are
for.  `dafny verify dfyconfig.toml` verifies all of it.

**Storage.**  `LogSpec` and `Transactions` describe `log.c` by the single-sector
writes it makes; a power failure stops them anywhere.  `CrashRuns` proves crash
atomicity over whole runs for any store that obeys four laws, and `LogRuns`
proves that the log obeys them.  `Log` is `log.c` itself, with its header updated
in place.  `FsState`, `Ownership`, `BlockMap`, `FreeSpace`, `FileIo`, `FileOps`,
`FileRead` and `Truncate` are the block and inode layers of `fs.c`: every change to
the bitmap, an inode or a data block goes together with the `log_write` of its
sector.  `FileWrite` cuts a long write into transactions that fit the log, and
`FileCrash` joins all of these: what a file holds after a write that lost its power,
however often recovery loses it too.  `FsRuns` does so for the whole file system and
for whole runs: any writes and truncations of any files, in any number of boots.
`Mkfs` makes the disk on which the first boot starts.  `BufferCache` and `Bio` are the buffer cache,
`IdeRefines` and `Ide` the two disk drivers.  `CacheUse` gives the buffer cache a
simple state (the disk, the dirty buffers, the held ones) that it refines, and
`LogCache`, `ChunkCache` and `FileCache` follow every `bread`, `bwrite` and `brelse`
of a `filewrite`, its log and its commits, over that cache.

**Memory.**  `FreeLists` and `Umalloc` are the heap allocator of `umalloc.c`;
`PageFrames` and `Vm` the address spaces of `vm.c` with the page allocator;
`Swap` the way of a process's pages to its swap file and back.

**Processes.**  `SwapSteps` and `ProcTable` are sleep, wakeup and swapping over
the process table, `SwapCounter` the counter that tells the inswapper when to sleep;
`PipeRuns` and `Pipe` the pipes.

**User programs.**  `ShellSpec`, `ShellStrings` and `Shell` are the shell's parser.
`ShellGrammar` says what lines may be typed and what they mean, and `ShellReads`,
`ShellAccepts` and `ShellRoundTrip` prove that the parser accepts just these lines and
builds just these trees.  `Grep` is the pattern matcher.

Where the code works in place there is a class or a method with the code's own
loops, and its contract ties the new state to functions of the old one; the
lemmas are about those functions.  A run of a protocol is a sequence of steps,
each what one processor does while it holds the lock that matters.

Some properties one would expect are false of the code.  Each has a lemma that
says exactly when it holds:

- a `kill` that strikes a process while it is being swapped out leaves it runnable
  without its pages (`SwapSteps.StepKeeps`, `SwapSteps.KilledRunsWithoutPages`);
- a process woken while it is being swapped out is not counted in `swappedout`, so the
  inswapper's test for work is wrong from then on whenever no more processes wait than
  were missed (`SwapCounter.TestIsRight`, `SwapCounter.WaitsUncounted`);
- a killed writer with more than a ring full leaves a reader asleep next to a full
  pipe (`PipeRuns.StepKeeps`, `PipeRuns.KilledWriterStrandsReader`);
- `deallocuvm` passes over pages when it starts inside a missing page table
  (`Vm.FreesAllExactly`, `Vm.DeallocPassesOver`);
- `allocuvm` can return the new size with its last page missing and a frame lost,
  because it ignores what `mappages` returns (`Vm.Memory.Allocuvm`, `Vm.LastFrame`);
- a process of more than seventeen pages cannot be swapped out, and swapping it in
  again panics (`Swap.SwapOutAndIn`, `Swap.SeventeenPages`);
- `balloc` hands out blocks of the log when all others are taken, because mkfs does
  not mark them (`BlockMap.BallocScans`, `BlockMap.BallocTakesLogHeader`), so a write
  to a full disk runs into the log (`FileOps.Writei`, `FileWrite.FileWrite`);
- mkfs leaves a hole at the end of the root directory when its entries fill whole
  blocks (`Mkfs.Disk.FixRoot`), and reading it outside of a transaction panics
  (`FileRead.Readi`);
- `malloc` of nearly 2^32 bytes returns a block that is too small
  (`Umalloc.Heap.Malloc`, `Umalloc.LargestRequests`), or one with no memory behind it
  (`Umalloc.EmptyCore`);
- `>>` does not append: it makes the same node as `>`
  (`ShellRoundTrip.AppendIsCreate`).

## Model

| member | source | states |
|---|---|---|
| LogSpec.RecoverPrefix | log.c:70-123 | the disk after any number of recovery's sector writes is a partly installed disk, or the fully recovered one |
| LogSpec.InstallAgain | log.c:70-83 | installing the log again over a partly installed disk leaves the same sectors |
| LogSpec.RecoveryRestarts | log.c:116-123 | a recovery stopped after any write can be run again from the start, and the home sectors it ends with are the same |
| LogSpec.RecoveredIsQuiet | log.c:116-123 | recovery leaves a well-formed disk with an empty log |
| LogSpec.CommittedMeans | log.c:139-147 | once the header write is on the disk, recovery yields exactly the logged contents in the logged sectors and the old contents elsewhere |
| Transactions.LoggedIsGood | log.c:173-183 | the header's sector list never holds a sector twice, never one of the log's own, and never more than fit |
| Transactions.SlotsHold | log.c:173-183 | slot i holds what was last logged for the i-th sector of the list |
| Transactions.FitsExactly | log.c:163-170 | a transaction gets through exactly if it logs home sectors and no log_write finds its list full |
| Transactions.CutIsPrefix | log.c:139-185 | the disks the crash theorems speak of are those after each prefix of the transaction's sector writes |
| Transactions.BeforeCommit | log.c:163-185 | while a transaction is open the header on the disk says there is none, and no home sector has changed |
| Transactions.AfterCommit | log.c:139-147 | from the header write on, recovery yields the whole transaction |
| Transactions.TxnComplete | log.c:139-153 | when commit_trans returns the log is empty and the home sectors are the old ones with the writes made directly |
| Transactions.TxnAtomic | log.c:139-185 | one transaction stopped after any sector write recovers to nothing of it or to all of it |
| CrashRuns.RunAtomic | log.c:70-185 | for a store that obeys the laws: whatever the transactions, wherever power fails and however often recovery itself is cut short, each epoch shows a prefix of its transactions that includes every one that returned |
| CrashRuns.SeriesAtomic | log.c:70-185 | the same for one epoch whose transactions lead through given states, followed by any number of boots that fail in recovery |
| CrashRuns.SeriesStopped | log.c:70-185 | the same when the last transaction is abandoned before it commits: after any boots the disk shows the state before it |
| LogRuns.LogIsLawful | log.c:70-185 | log.c obeys the four laws: recovery stopped anywhere, recovery finished, a transaction stopped anywhere, a transaction finished |
| LogRuns.CrashAtomicity | log.c:70-185 | crash atomicity of log.c over whole runs of transactions, failures and failing recoveries |
| LogRuns.OpenShowsNothing | log.c:163-185 | a transaction stopped while it is open, after any of its slot writes, shows nothing of itself |
| Log.LoggingMore | log.c:163-185 | one more log_write keeps the state of an open transaction: the disk differs only in log slots, exactly the logged sectors are pinned in the cache, and readers see the transaction's own writes |
| Log.CommitFinishes | log.c:139-147 | committing an open transaction makes the rest of its writes, ends on the disk the crash theorems speak of, and leaves no buffer pinned |
| Log.Log.LogWrite | log.c:163-185 | when it panics, and otherwise which slot is written, what is listed and what is pinned |
| Log.Log.WriteHead | log.c:102-114 | the header sector gets the in-memory list, in one write |
| Log.Log.ReadHead | log.c:86-97 | the in-memory list becomes the one on the disk |
| Log.Log.InstallTrans | log.c:70-83 | the disk, the writes made and the buffers still pinned afterwards |
| Log.Log.RecoverFromLog | log.c:116-123 | the disk becomes the recovered one through exactly the specified writes |
| Log.Log.CommitTrans | log.c:139-153 | nothing if nothing was logged; else the header write and then just a recovery's writes |
| Log.Log.RunTransaction | log.c:125-185 | a transaction that fits panics nowhere, makes exactly the specified sector writes, leaves the disk with them made, the home sectors as if written directly, and the log idle |
| FsState.LogKeepsTrack | log.c:155-185 | changing one sector and logging it keeps the file system's image equal to the transaction's writes applied to the old image |
| FsState.ImageInjective | fs.h:4-9 | the home sectors determine bitmap, inodes and data |
| Ownership.OwnedMeans | fs.h:43-46 | before the log a bitmap bit is set exactly when its block is reserved or held by a slot of a file, never both, and by one slot only; no file holds a block of the log, whose own bits may be anything |
| BlockMap.ScanBitmap | fs.c:61-74 | the two loops of balloc find the lowest clear bit, or none |
| BlockMap.BallocScans | fs.c:52-76 | balloc takes the lowest clear bit of the whole bitmap; a block of the log exactly when every lower block is taken and one of the log's bits is clear; it panics exactly when none is |
| BlockMap.BallocTakesLogHeader | fs.c:52-76 | with the bits mkfs sets, once files have all blocks below the log, balloc takes the log's header sector |
| BlockMap.BmapFinds | fs.c:355-383 | bmap returns the block a slot holds and changes nothing |
| BlockMap.BmapGrows | fs.c:355-383 | for an empty slot it puts a zeroed free block there, and a zeroed indirect block if that is missing; ownership holds, every other slot and every block of other files is undisturbed |
| FreeSpace.BallocFree | fs.c:52-76 | balloc takes one of the free blocks before the log, if there is one |
| FreeSpace.BmapFree | fs.c:355-383 | bmap takes exactly 0, 1 or 2 blocks as its slots require; exactly when fewer are free before the log it takes a block of the log, if one of its bits is clear, or panics |
| FileIo.IterByte | fs.c:478-484 | one iteration of writei changes exactly the bytes it writes |
| FileIo.IterOther | fs.c:478-484 | and no slot or block of any other file |
| FileIo.IterTracks | fs.c:478-484 | and everything it changes is logged |
| FileOps.WriteBytes | fs.c:478-484 | writei's loop: the bytes, the blocks gained, the sectors logged, the blocks taken, and when it runs short of blocks or of the log's slots |
| FileOps.Writei | fs.c:461-491 | fails exactly past the size or past the largest file; else it goes wrong exactly when fewer blocks before the log are free than it takes (then balloc takes one of the log's, or panics) or when a log_write finds its list full; else the file, with holes or without, is its old contents overwritten at off, it gets no holes, other files and inodes are as before, its inode is up to date on the disk exactly if the file grew or no address was missing from the inode, and only the expected sectors are logged |
| FileOps.LogFullStays | fs.c:478-489 | if the loop can come to its end, writei is stopped by log_write exactly when the calls of that whole run overfill the list |
| FileOps.WithinSize | fs.c:478-489 | a write within the size maps no new block, so skipping iupdate leaves no address behind |
| FileRead.Readi | fs.c:433-457 | returns exactly the slice clipped at the size, across direct and indirect blocks; bmap fills the holes it meets with zeroes, so it panics exactly if there is one and no transaction is open, and inside one goes wrong exactly if too few blocks before the log are free or a log_write finds its list full; contents, other files and ownership are kept |
| FileRead.BigReadStays | fs.c:450-455 | if all the holes can be filled, it is stopped by log_write exactly when filling them all overfills the list |
| FileRead.WithoutHoles | fs.c:450-455 | so on a file without holes it takes no block and never panics |
| Truncate.Bfree | fs.c:79-95 | that block's bit is cleared and no other, inodes and data stay, one call logs the bitmap sector and the log stays in step; it panics exactly for a block that is neither reserved nor held by a file |
| Truncate.ExactlyFreed | fs.c:390-418 | after itrunc a block's bit is set exactly if it was set and the file did not hold the block |
| Truncate.Itrunc | fs.c:390-418 | never frees a free block; frees exactly the file's blocks, with holes or without; the file is empty on the disk too and ownership holds |
| FileWrite.ChunkFits | file.c:132-151 | a chunk logs at most six sectors besides the bitmap's, seven with one bitmap sector, so log_write does not panic for size |
| FileWrite.NeverTooBig | file.c:132-146 | so writei is not stopped by log_write in a chunk |
| FileWrite.FileWrite | file.c:116-155 | returns n exactly when the write starts within the file and ends within the largest one; its chunks are transactions that fit the log and lead through files holding ever longer prefixes of the write; -1 leaves exactly the whole chunks below the largest file written, and the offset after them; it goes wrong exactly when fewer blocks before the log are free before the call than the chunks that fit take, and then takes a block of the log if one of its bits is clear, or panics; every 1536 bytes, or the last of them, are one transaction |
| FileWrite.ShippedSizes | mkfs.c:14-17 | with mkfs's sizes there is one bitmap sector and the chunks fit the log |
| FileCrash.FileWriteCrashSafe | file.c:132-151 | wherever power fails during filewrite, and however many recoveries it cuts short, the recovered file is the old one overwritten by a prefix that ends at a chunk boundary and includes every committed chunk; it has no holes and other files are untouched |
| FileCrash.FileWritePanicSafe | file.c:132-151 | if a chunk panics before its commit, whatever it has logged, the disk recovers through any boots to the last committed snapshot |
| FsRuns.WriteChanges | file.c:141-146 | a chunk is a transaction that gives one file new contents, on the disk too, and changes no other |
| FsRuns.TruncateChanges | fs.c:390-418 | so is a truncation, and it fits the log |
| FsRuns.ChunkChanges | file.c:134-151 | so is every chunk of a filewrite |
| FsRuns.GoodByImage | fs.h:4-9 | what the files hold, and that ownership is in order, depends on the home sectors only |
| FsRuns.FsCrashSafe | log.c:70-185 | any writes and truncations of any files in any number of boots, with power failures anywhere, in recoveries too: recovery always leaves a sound file system in which every file holds what the operations of each boot make of it, all whose commit returned and at most one more |
| Mkfs.BallocIs | mkfs.c:263-276 | taking the next block is what the kernel's balloc would do, with the bits that mkfs sets |
| Mkfs.AppendFile | mkfs.c:248-293 | iappend adds its bytes to the one file, exactly if they fit the largest file and the blocks before the log; else it aborts or runs into the log |
| Mkfs.Disk.Iappend | mkfs.c:248-293 | the same on the image, which stays sound |
| Mkfs.Disk.Ialloc | mkfs.c:213-224 | a new inode without blocks |
| Mkfs.Disk.FixRoot | mkfs.c:143-148 | the root directory's size is rounded up, and it gets a hole exactly if it was whole blocks |
| Mkfs.Disk.Balloc | mkfs.c:226-241 | the bitmap that is written is right exactly if the used blocks are within its first sector |
| Mkfs.KernelStarts | mkfs.c:95-152 | the kernel starts on a sound file system, with exactly the used blocks marked and none of the log's |
| BufferCache.LookupMeans | bio.c:61-93 | bget finds a cached sector; else it recycles the last buffer of the list that is neither held nor dirty, and panics only if there is none |
| BufferCache.StepKeeps | bio.c:58-138 | each operation keeps the cache's invariant |
| BufferCache.RunKeeps | bio.c:58-138 | at every step of every run the list is a permutation of all buffers, no sector is cached twice, and a valid, idle, clean buffer equals the disk |
| BufferCache.ReleaseMoves | bio.c:127-132 | in every run brelse puts its buffer at the head of the list and leaves the order of the others; no other operation moves a buffer |
| BufferCache.ListIsByRelease | bio.c:117-138 | at every moment of every run one buffer stands before another exactly if its last brelse came later, or neither was released and it stood before at the start |
| BufferCache.RecyclesOldest | bio.c:82-90 | so bget recycles the buffer whose last brelse is the longest ago, of those neither held nor dirty |
| BufferCache.DirtyStays | bio.c:82-90 | in every run a dirty buffer keeps its sector and its contents until it is written or changed itself, whatever is got, recycled or released |
| BufferCache.DirtyIsFound | bio.c:66-80 | so bget finds it, or sleeps for it |
| BufferCache.HitIsCurrent | bio.c:68-80 | a clean valid buffer that bget returns has the disk's contents |
| BufferCache.RunsOutOnlyWhenAllInUse | bio.c:82-92 | bget panics exactly when the sector is not cached and every buffer is held or dirty |
| BufferCache.EnoughBuffers | bio.c:82-92 | with fewer sectors in use than buffers, bget does not run out; FileCache.FileWriteNeverStuck shows that filewrite stays below |
| Bio.Unlinks | bio.c:127-128 | taking a buffer off the doubly linked ring leaves the ring of the others |
| Bio.Pushes | bio.c:129-132 | linking a buffer in at the head |
| Bio.BufCache.Binit | bio.c:38-56 | the ring holds every buffer once, the last one first, and the invariant holds |
| Bio.BufCache.Bget | bio.c:61-93 | both scans over the links find what the specification says, and the buffer is marked |
| Bio.BufCache.Brelse | bio.c:119-138 | panics exactly for a buffer that is not held; else the ring is the buffer followed by the old ring without it, and the invariant holds |
| Bio.BufCache.Bwrite | bio.c:108-115 | panics exactly for a buffer that is not held; else buffer and disk agree |
| CacheUse.BreadRuns | bio.c:95-106 | with fewer buffers in use than there are, bread has one, does not sleep, and returns the pinned contents of a logged sector and the disk's of any other, as Log.Seen says |
| CacheUse.ProgRuns | bio.c:58-138 | every sequence of bread, bwrite, brelse and changes that is possible on the simple state runs on the cache without running out or sleeping, and the cache keeps standing behind that state |
| LogCache.LogWriteGoes | log.c:163-185 | log_write over the cache does to disk and pins what Log says, and has a buffer for its slot |
| LogCache.CommitGoes | log.c:139-153 | so does commit_trans; afterwards nothing is dirty or held and the disk is the one the crash theorems speak of |
| ChunkCache.BallocGoes | fs.c:52-76 | balloc over the cache: readsb, the scan of the bitmap, the bit and bzero never lack a buffer, and the cache then shows the file system balloc leaves |
| ChunkCache.BmapGoes | fs.c:355-383 | the same for bmap, which holds the indirect block meanwhile |
| ChunkCache.LoopGoes | fs.c:478-484 | the same for every run of writei's loop; all it dirties or holds lies in the sectors of the chunk |
| FileCache.ChunkGoes | file.c:141-146 | the same for a chunk from begin_trans to commit_trans, given more buffers and log slots than the chunk has sectors, which are six and the bitmap's |
| FileCache.FileWriteNeverStuck | file.c:132-151 | so no bget of a filewrite finds all buffers in use or sleeps, every bread returns what file system and log have there, and at the end no buffer is dirty or held and the disk shows the last snapshot |
| FileCache.ShippedBuffers | param.h:6 | ten buffers and mkfs's sizes are enough |
| IdeRefines.InterruptServes | ide.c:91-119 | an interrupt does to the first buffer in the queue just what memide's iderw would do now |
| IdeRefines.RunRefines | ide.c:69-159 | in every run the synchronous driver is where this one will be when its queue is served |
| IdeRefines.RunIsFifo | ide.c:125-147 | requests are served once each, first come first served |
| IdeRefines.CallerSeesReference | ide.c:149-158 | a buffer that is not queued is as memide would have left it; a queued one still waits |
| IdeRefines.WaitsWhileQueued | ide.c:149-153 | from its request on, a buffer lacks valid, clean contents exactly while it is queued |
| IdeRefines.DiskMatchesReference | ide.c:69-119 | a sector without a queued request holds what it would with memide |
| Ide.MemDriver.Iderw | memide.c:36-58 | a request is accepted exactly if the buffer is held, dirty or not valid, and its sector is on the disk, and which panic comes otherwise; then buffer and sector hold the same, what was dirty or what was on the disk, and no other sector changes |
| Ide.QueueDriver.Last | ide.c:141-142 | the walk along qnext ends at the last buffer of the queue |
| Ide.QueueDriver.Iderw | ide.c:125-147 | a request is accepted exactly if the buffer is held, dirty or not valid, and its disk is there, and which panic comes otherwise; then the buffer is last in the queue, and the device is started if it was idle |
| Ide.QueueDriver.Ideintr | ide.c:91-119 | the first buffer is served and leaves the queue, the next is started; nothing on a spurious interrupt |
| FreeLists.FreedKeeps | umalloc.c:33-43 | free keeps the list one circle in address order of blocks that do not touch, and adds exactly the freed units |
| FreeLists.OneCircle | umalloc.c:24-44 | from base the list goes up through all its headers, each once, and then back to base |
| FreeLists.RunInBlock | umalloc.c:33-42 | consecutive free units always lie in one block |
| FreeLists.HeadMeans | umalloc.c:33-42 | a header is on the list exactly where a run of free units begins, and its size is the length of the run |
| FreeLists.FreeListUnique | umalloc.c:24-44 | the free units determine the list and its fields, so the order of frees does not matter |
| FreeLists.TakeTail | umalloc.c:79-81 | cutting the upper units off a block |
| FreeLists.TakeWhole | umalloc.c:76-77 | taking a block off the list |
| Umalloc.PartitionFree | umalloc.c:24-44 | free units and allocated blocks stay disjoint and make up all memory from sbrk, when a block is freed |
| Umalloc.PartitionTake | umalloc.c:75-84 | the same when one is allocated |
| Umalloc.PartitionMore | umalloc.c:46-61 | the same when sbrk gives more |
| Umalloc.PayloadIsFree | umalloc.c:24-90 | whatever a program stores in its blocks leaves the allocator's invariant intact |
| Umalloc.UnitsHold | umalloc.c:69 | the block holds the request exactly when the 32-bit sum does not wrap |
| Umalloc.LargestRequests | umalloc.c:69 | the seven largest requests count as one unit, a bare header |
| Umalloc.EmptyCore | umalloc.c:46-61 | for exactly eight requests sbrk is asked for no bytes; for all others it is asked for the units of the request, and for at least 4096 |
| Umalloc.Heap.FindPlace | umalloc.c:30-32 | the search ends, from any freep, at the header below the block |
| Umalloc.Heap.LinkIn | umalloc.c:33-43 | the fields after joining upwards, downwards, both or neither |
| Umalloc.Heap.Free | umalloc.c:24-44 | the block's units become free, other blocks keep their sizes, the invariant holds |
| Umalloc.Heap.MoreCore | umalloc.c:46-61 | the new units become free and some block on the list is large enough; 0 exactly if sbrk fails |
| Umalloc.Heap.Malloc | umalloc.c:63-90 | fails exactly when there is no run of enough free units and sbrk fails; calls morecore exactly if there is no such run, and once; else the block returned is new, of the requested units, and exactly those have left the free ones; it has room for the request exactly if the 32-bit sum does not wrap |
| SwapSteps.WakeScanAt | proc.c:599-630 | wakeup1 treats every process but the inswapper as if it were alone |
| SwapSteps.StepKeeps | proc.c:528-670 | every step keeps "runnable or running means resident" and its companions; a kill does exactly when it does not strike a process being swapped out |
| SwapSteps.ScheduledIsResident | proc.c:454-463 | in every run the scheduler picks only processes whose pages are in memory |
| SwapSteps.SwapOutOutcome | proc.c:553-582 | a process that sleeps on chan and is swapped out ends runnable exactly when a wakeup on chan came in between |
| SwapSteps.WokenAtOnce | proc.c:605-628 | a process asleep on chan when wakeup1(chan) runs is runnable at once, or marked if it is being swapped out |
| SwapSteps.WokenAtTheLatest | proc.c:567-575 | and then runnable, with the inswapper, when its swap-out ends |
| SwapSteps.SleepsUntilWoken | proc.c:528-582 | in every run a process that calls sleep on chan, with swapping on or off, sleeps on chan until it is woken or killed, swapped out exactly when its swap-out has ended |
| SwapSteps.SleeperIsWoken | proc.c:599-630 | the first wakeup on chan after that makes it runnable, or hands it to the inswapper, or marks it, as its swap-out has not begun, has ended or goes on |
| SwapSteps.SleeperRunsAgain | proc.c:567-575 | in the last case it waits for the inswapper, which is awake, when the swap-out ends |
| SwapSteps.KilledIsWoken | proc.c:644-661 | a kill wakes the first process with that pid in the same way |
| SwapSteps.StepLeadsOn | proc.c:443-505 | in every run each step leads on to the next of a process's life; whoever has yielded, been made or been swapped in can be picked by the scheduler and has its pages |
| SwapSteps.RunnableUntilPicked | proc.c:454-463 | a runnable process stays so until the scheduler picks it |
| SwapSteps.ExitedStaysGone | proc.c:369-373 | a process that has exited is not picked before its entry is used again |
| SwapCounter.CounterStep | proc.c:599-661 | every step adds to swappedout what it adds to the number of processes that wait to be swapped in, except the end of a swap-out during which the process was woken |
| SwapCounter.CounterFallsBehind | proc.c:567-573 | in every run the counter is that number less the number of such ends |
| SwapCounter.TestIsRight | proc.c:185-192 | so the inswapper's test tells whether a process waits exactly when none does or more do than were missed |
| SwapCounter.WaitsUncounted | proc.c:567-573 | a run in which a process waits and the counter is 0 |
| SwapCounter.WaitingWakesInswapper | proc.c:570-628 | whenever a process comes to wait the inswapper is made runnable |
| SwapCounter.InswapperSleeps | proc.c:194-197 | and once asleep it sleeps until one does, or it is killed |
| SwapSteps.KillCanStrandAProcess | proc.c:644-656 | after such a kill the scheduler can pick the process without its pages |
| SwapSteps.KilledRunsWithoutPages | proc.c:644-656 | a run in which it does |
| ProcTable.ProcTable.SleepEnter | proc.c:549-559 | the first half of sleep |
| ProcTable.ProcTable.constructor | proc.c:242-269 | after userinit there are init and the inswapper, both runnable, and the table is sound |
| ProcTable.ProcTable.SleepSwapped | proc.c:567-581 | the second half, after swapOut |
| ProcTable.ProcTable.Wakeup1 | proc.c:599-630 | the loop over the table does the wakeup step, counts the processes it hands to the inswapper, and keeps the invariant |
| ProcTable.ProcTable.Pick | proc.c:454-463 | the scan finds the next runnable process, which is resident |
| ProcTable.ProcTable.Yield | proc.c:497-504 | the yield step |
| ProcTable.ProcTable.FindSuspended | proc.c:134-137 | the inswapper's scan |
| ProcTable.ProcTable.EndSwapIn | proc.c:177-182 | the process is handed to the scheduler and counted off |
| ProcTable.ProcTable.Kill | proc.c:644-670 | the kill step, which process is marked killed, the counter, and exactly when the table stays sound |
| PipeRuns.StepInOrder | pipe.c:77-120 | whatever happens, what was read is a prefix of what was written and at most 512 bytes are inside |
| PipeRuns.StepKeeps | pipe.c:58-120 | every step leaves readers asleep only on an empty pipe and writers only on a full one, but for one kind of burst, described exactly |
| PipeRuns.KilledWriterStrandsReader | pipe.c:84-97 | a run with that burst: the reader is asleep next to 512 bytes |
| PipeRuns.PipeIsSafe | pipe.c:58-120 | in every run without that burst, at every moment, bytes are in order, at most 512 are inside and nobody sleeps who has something to do |
| PipeRuns.ReadReturns | pipe.c:99-120 | in every run a read of n bytes that gets the lock takes the oldest bytes, as many as are inside and at most n, and returns their number; it sleeps, or fails if killed, exactly on an empty pipe that is open for writing |
| PipeRuns.WriteReturns | pipe.c:77-97 | in every run what a write has put in is a prefix of its bytes; it returns their number exactly when all are in; else the pipe is full and it sleeps, or fails if it is killed or nobody reads |
| PipeRuns.NothingIsLost | pipe.c:77-120 | in every run what the reads took, put together, is a prefix of what the writes put in, and all but at most 512 bytes of it |
| PipeRuns.EndOfFile | pipe.c:104-113 | after the last writer closes, a read never sleeps; it returns 0 exactly if it asked for nothing or nothing is left |
| PipeRuns.NobodyReads | pipe.c:84-88 | after the last reader closes, a write never sleeps; it fails exactly if its bytes do not all fit |
| Pipe.FullTest | pipe.c:84-113 | the comparisons of the 32-bit counters mean full and empty even after they wrap |
| Pipe.PutKeeps | pipe.c:92 | storing at nwrite modulo 512 keeps the ring, across the wrap |
| Pipe.GetKeeps | pipe.c:115 | reading at nread modulo 512 yields the oldest byte |
| Pipe.Pipe.WriteBurst | pipe.c:77-97 | how many bytes go in, that they all do exactly if there is room, how the burst ends and whether readers are woken |
| Pipe.Pipe.ReadBurst | pipe.c:99-120 | which bytes come out and how many, when it returns 0, sleeps or fails, and whether writers are woken |
| Pipe.Pipe.Close | pipe.c:58-74 | the end is closed, the other side is woken, and the page is given back exactly when both ends are closed |
| ShellGrammar.Characters | sh.c:262-263 | which characters are white space, symbols and parts of words |
| ShellGrammar.ItemsTaken | sh.c:429-445 | the loop of parseexec takes words and redirections in any order, with any white space: the words into argv, each redirection around those before it; at the tenth word it panics |
| ShellReads.LineReads | sh.c:344-446 | wherever a line of the grammar stands, before a closing parenthesis or the end, parseline reads it as the tree it means |
| ShellReads.TypedIsRead | sh.c:327-342 | parsecmd builds the tree that a typed line means: simple commands, pipelines, lists, blocks and background commands of any length and nesting; or it panics with "too many args", exactly if a command has ten words or more |
| ShellAccepts.LineTyped | sh.c:344-446 | whatever parseline accepts is a line of the grammar |
| ShellAccepts.AcceptsExactly | sh.c:327-342 | parsecmd accepts a line exactly if it is one of the grammar and no command has ten words, and every way to take the line apart means the tree it returns |
| ShellAccepts.NotClosed | sh.c:408-409 | a line that ends inside a parenthesis is complained about as such |
| ShellAccepts.NotOpened | sh.c:335-339 | so is a closing parenthesis too many, whatever follows |
| ShellAccepts.NotExpected | sh.c:434-435 | so is an opening one after words or redirections |
| ShellAccepts.NoFile | sh.c:380-383 | so is a redirection without a file |
| ShellRoundTrip.FullPrints | sh.c:344-446 | every tree of words is meant by some line |
| ShellRoundTrip.RoundTrip | sh.c:327-446 | every tree of words printed fully parenthesised is parsed back to itself, unless a command has ten words or more; then parsecmd panics with "too many args" |
| ShellRoundTrip.AppendIsCreate | sh.c:388-393 | in any text, `>>` makes the same node as `>` |
| ShellStrings.LineIsWords | sh.c:344-446 | every string position a parse returns is a maximal run of word characters |
| ShellStrings.EndedStrings | sh.c:449-493 | nulterminate ends every string at its token's end and cuts none short |
| ShellStrings.ParsedStrings | sh.c:327-342 | after parsecmd every argv and file string is exactly the token scanned |
| Shell.Parser.NextToken | sh.c:265-308 | gettoken: kind and extent of the token, and the cursor |
| Shell.Parser.Peek | sh.c:310-320 | the cursor skips white space and the next character is seen |
| Shell.Parser.Redirs | sh.c:374-397 | parseredirs yields the specified tree and cursor or complaint, and terminates on every input |
| Shell.Parser.Simple | sh.c:426-445 | parseexec for a simple command does |
| Shell.Parser.Command | sh.c:415-424 | parseexec does |
| Shell.Parser.Block | sh.c:399-413 | parseblock does |
| Shell.Parser.Pipeline | sh.c:361-372 | parsepipe does |
| Shell.Parser.Sequence | sh.c:344-359 | parseline does |
| Shell.Parser.NulTerminate | sh.c:449-493 | the buffer after nulterminate |
| Shell.Parser.Cmd | sh.c:327-342 | parsecmd accepts just the lines of the grammar without a command of ten words; it returns the tree that the line means, whose strings in the buffer are the tokens, or the specified complaint |
| Grep.ReadsBack | grep.c:71-95 | a pattern and its text determine each other: every text is the writing of what it means, and a pattern is the meaning of its writing exactly if no plain character stands before a star sign, no plain dollar sign at the end, and no caret at the start |
| Grep.PlainIsSubstring | grep.c:71-95 | a pattern without special characters is found exactly where it stands in the text |
| Grep.AnyText | grep.c:71-105 | what the dot, the star and the anchors ask of a whole text |
| Grep.StarStep | grep.c:97-105 | c* matches nothing, or one more character and then c* |
| Grep.MatchHere | grep.c:83-95 | true exactly when a prefix of the text is in the pattern's language |
| Grep.MatchStar | grep.c:97-105 | true exactly when a prefix is in the language of c* followed by the pattern |
| Grep.Match | grep.c:71-81 | true exactly when some substring is in the pattern's language, at the start if the pattern begins with ^ |
| PageFrames.DropKeeps | vm.c:263-270 | freeing a page keeps every frame free or used, just once |
| PageFrames.MapKeeps | vm.c:232-241 | so does mapping a free frame |
| PageFrames.TableKeeps | vm.c:54-63 | and making a page table |
| Vm.FreesAllExactly | vm.c:249-273 | deallocuvm frees every page of its range exactly when it starts at a table's first page, or in a present table, or the first table above has nothing below that place |
| Vm.DeallocPassesOver | vm.c:258-262 | a space in which it passes over a page |
| Vm.Memory.Dealloc | vm.c:258-271 | the loop frees exactly the pages it does not miss, keeps the others' contents and conserves frames |
| Vm.Memory.Deallocuvm | vm.c:249-273 | its result, and the pages left |
| Vm.Memory.AllocPage | vm.c:232-241 | mapped and zeroed; or out of memory; or the frame is lost because there is none for a page table; or the panic "remap" |
| Vm.Memory.AllocPages | vm.c:231-241 | from the tables, pages and number of free frames at the start: exactly when it runs out, panics or loses a frame, at which page; which pages and tables have come, and that the old pages are kept |
| Vm.Memory.Allocuvm | vm.c:221-243 | its result, exactly when a frame is lost and which page is then missing; the pages gained, zeroed; the old ones kept on success, and which remain on failure |
| Vm.LastFrame | vm.c:232-241 | with one frame and no page table it returns the new size without the page, and the frame is lost |
| Vm.Memory.Freevm | vm.c:277-292 | every frame of the address space, page tables and directory included, is back on the free list once |
| Swap.SavePages | proc.c:212-223 | the file begins with the pages; a write past the largest file fails |
| Swap.SwapOut | proc.c:202-238 | succeeds exactly if the file can be made and the pages fit the largest one; then the pages are in the file and freed; else nothing has changed |
| Swap.LoadUvm | vm.c:198-217 | with all pages mapped it succeeds exactly if the file is long enough, and the user memory then begins with the file; else, unless the file ends before the first page that is not mapped, it panics there if the page table is missing, or writes over physical page 0 |
| Swap.SwapIn | proc.c:142-178 | the process is made runnable exactly when the file opens and either all its pages can be made, and then its memory begins with as much of the file as there is, or allocuvm lost the last page and the file does not reach it; loaduvm's failure is ignored; panics if the pages were never freed, or if the file reaches the lost page |
| Swap.SwapOutAndIn | proc.c:142-238 | swapping out and in restores every byte below the size exactly when the file can be made and opened and the pages fit the largest file; else swapOut frees nothing and swapIn, if the file opens, panics, or fails if no frame is free |
| Swap.SeventeenPages | proc.c:212-223 | which is when the size is at most seventeen pages |

## Left out

- FsRuns.FsCrashSafe: one transaction at a time, which is what the log allows; creating and removing files is not among the operations.
- FileOps.Writei: the file system's state is passed and returned as a value; the loops are the code's, but update in place and aliasing of buffers are not captured.  The same holds of FileOps.WriteBytes, FileRead.Readi, Truncate.Itrunc, Truncate.Bfree and FileWrite.FileWrite.
- FileRead.Readi: a call on a device inode is only recognised as one; drivers are not part of this model.  The same holds of FileOps.Writei.
- FileWrite.FileWrite: files without holes only: mkfs makes no others, but for the root directory, which filewrite does not write, and writei keeps them so.  What happens after balloc has handed out a block of the log is not followed.
- FileCache.FileWriteNeverStuck: the chunks that commit, with no other process holding buffers; what a chunk does before it runs short of blocks is not followed through the cache.
- BufferCache.RunKeeps: sleeping in bget ends the step; the retry after the wakeup is a new one.
- IdeRefines.RunRefines: no disk errors; a read or write the device reports as failed is not modelled.
- Umalloc.Heap.Malloc: request sizes whose unit count times eight reaches 2^32 are outside its contract, and sbrk is taken to return memory that was never returned before, above `base` and aligned with it.
- SwapSteps.StepKeeps: a process does not sleep a second time inside swapOut; file operations there may fail or succeed.  That a runnable swapped-out process is eventually swapped in is not claimed, nor where the inswapper's scan stands when it comes to its test of `swappedout`.
- Swap.SwapIn: the file is its contents; that a full disk can make filewrite panic is in FileWrite.FileWrite only.
- Vm.Memory.Allocuvm: a page table is its set of present entries; permission bits and the kernel's mappings are not modelled.
- Disk sectors are tagged (raw bytes, log header, bitmap, inodes, addresses) in place of byte-level structures; byte order and padding are not modelled.
- Two processors inside one lock, spinlock internals, context switches, interrupts other than the disk's, port I/O and boot code.
- copyuvm, inituvm, clearpteu, freerange and the shared-memory calls.
- Inode allocation and reference counts, directories, path lookup, link counts and the system calls in sysfile.c.
- mkfs's directory entries and its reading of the files it is given, exec.c, runcmd, grep's reading of lines, the console and the other user programs.
