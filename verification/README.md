# A verified model of the xv6 kernel cores

The project models the parts of this xv6 course kernel that keep invariants over shared state, and some
self-contained user programs, and proves what they are for. Every model follows the branches, constants and
error paths of the C code; where the code falls short of what one would expect, the theorem says exactly
when.

* **Processes** (`proc.c`): state lists and ready queues threaded through `next`, the multi-level feedback
  scheduler, fork, exit, wait, sleep, wakeup, kill and setpriority. `Sched*.dfy` hold the critical sections as
  functions on values and the theorems about runs; `ProcTable.dfy` holds the pointer code.
* **Log and buffer cache** (`log.c`, `bio.c`): `LogModel.dfy`, `CrashSafety.dfy`, `LogReserve.dfy` and
  `LogDistinct.dfy` are the log as a machine that can crash between any two block writes; `BufferCache.dfy` and
  `Log.dfy` are the code; `LogBuffers.dfy` relates their sizes.
* **Files** (`fs.c`, `file.c`, `mkfs.c`): `FsModel.dfy`, `FileBlocks.dfy`, `FileWrites.dfy` and `FileTrunc.dfy` hold
  block ownership and file contents as values, `FileSystem.dfy`, `OpenFile.dfy` and `Mkfs.dfy` the code.
  `DiskFormat.dfy` and `DiskBytes.dfy` have the words and bytes of the blocks; `FileCrash.dfy` and
  `FileTransact.dfy` put file operations on the log.
* **Memory** (`umalloc.c`, `vm.c`, `kalloc.c`): `FreeList.dfy` and `Umalloc.dfy`, `VmModel.dfy` and `Vm.dfy`.
* **User programs** (`grep.c`, `sh.c`) and **pipes** (`pipe.c`): `Grep.dfy`, `ShellGrammar.dfy`,
  `ShellOrder.dfy`, `ShellSpec.dfy`, `ShellParser.dfy`, `Pipe.dfy`.

Code that updates things in place is a class whose methods are proved against functions on its old state.
Pointers are slot or page numbers, and `NIL` or 0 stands for null. A region under a lock is one step. A panic is
a flag, so a contract that says `!panicked` proves the panic unreachable. Interrupts, devices, time and what the
other side of a system call does are parameters.

What the code does not do, although one might expect it:

* `prioadjust` walks a queue through `next` after clearing it, so a pass promotes the head of each queue only
  (`PassPromotesOnlyHeads`), and other processes may stay where they wait (`PassLeavesWaiting`). Starvation is
  still excluded.
* The log region that `mkfs` lays out has one data block less than `begin_op` may reserve, so the panic of
  `log_write` can be reached (`Overflow`, `MkfsOverflows`), exactly when the region has fewer than LOGSIZE data
  blocks if no operation calls `log_write` more than MAXOPBLOCKS times (`NoOverflow`).
* `log_write` tests for a full log before it looks if the block is logged already. So if the budget of an operation
  is MAXOPBLOCKS different blocks, a call panics exactly if the operation has logged that many and the log is full
  (`PanicsExactly`, `RelogPanics`). An operation that logs its last new block last is safe (`LeanNeverPanics`).
* There are as many buffers as log slots, and a commit needs one that is neither pinned nor held. While others hold
  some blocks, operations within their budgets can lead to the panic of `bget` exactly if these and the largest
  transaction take up all buffers (`CommitWithoutBuffer`). With the region of `mkfs` one reader is enough
  (`MkfsReaderPanics`); with a larger region none is needed, so no size of the region avoids both panics
  (`EveryRegionPanics`).
* One chunk of `filewrite` always fits the log (`ChunkFitsLog`), but not always what one operation reserves. What it
  logs is counted exactly (`WriteLogCount`); on a disk like that of `mkfs` the file size, the offset and the length
  decide (`OperationFits`), and up to six blocks and a byte it is always enough (`LongestChunk`). Since `writei` logs
  the inode block last, such chunks do not panic in a region of LOGSIZE data blocks (`CallsGetThrough`).
* `mkfs` rounds up the size of the root directory even if it is a multiple of the block size, which leaves a hole
  (`RoundingHoles`).
* `malloc` computes in 32 bits, so requests of nearly 4 GB get too small a block (`NUnitsSuffice`), and requests from
  2 GB on do not ask sbrk for what they mean (`SbrkArgExact`).
* `deallocuvm` jumps 4 MB where a page table is missing, not to the next page table, and can miss pages
  (`DeallocAll`, `JumpMisses`). It cannot for the address spaces that processes have (`DeallocUpTo`).
* `pipewrite` does not wake the readers when it gives up, so a killed process with more to write than fits leaves a
  reader asleep beside a full pipe (`Pipe.PipeDev.Write`, `ForgottenReader`); no other step does.
* `allocuvm` does not look at the result of `mappages`: if memory runs out at a page table, a page is lost, and if it
  was for the last page, success is reported (`Vm.AddressSpace.AllocUvm`, `PageLost`). `copyuvm` looks at it and fails,
  but loses the page as well (`Vm.AddressSpace.CopyUvm`).

`dafny verify dfyconfig.toml` checks the whole project.

## Model

| member | source | states |
|---|---|---|
| `Sched.MovePartition` | proc.c:1033-1109 | moving a process from the list of its old state to that of any new state keeps every slot on exactly one list, once |
| `SchedRuns.NextPartition` | proc.c:69-113 | every locked step of the kernel keeps each slot on exactly the list for its state, and for its priority if runnable |
| `SchedLife.BootInv` | proc.c:148-212 | after userinit the lists partition the table, the first process is ready and nobody is orphaned |
| `SchedEffects.BootIs` | proc.c:148-212 | every slot, list and counter after userinit: process 1 in the last slot with priority 0 and a full budget, the other slots free in descending order |
| `SchedLife.NextLife` | proc.c:236-295 | every step keeps parents alive, free slots parentless, and nobody asleep in wait with a zombie child |
| `SchedLife.ExitSlots` | proc.c:343-408 | exit changes exactly the exiting slot, the woken ones and the parents of its children |
| `SchedLife.RunInv` | proc.c:343-521 | every run of locked steps from a good state ends in a good state |
| `SchedLife.NoLostZombies` | proc.c:455-521 | in every state reachable from boot a zombie has a live parent that is not asleep in wait, live processes other than init have a live parent, and free slots have none |
| `SchedRuns.WakeRefinesScan` | proc.c:740-765 | wakeup1 over the sleep list changes the slots exactly as the scan over the whole table |
| `SchedScan.ExitRefinesScan` | proc.c:301-341 | exit over the lists makes exactly the state and parent changes of exit over the table |
| `SchedScan.WaitRefinesScan` | proc.c:414-453 | wait over the lists reaps or reports no children in the same cases as wait over the table, and what it reaps is a zombie child |
| `SchedFair.PassPromotesOnlyHeads` | proc.c:1227-1248 | a promotion pass raises the priority of a waiting process exactly if it is the head of a queue below the top, and by one level |
| `SchedPass.PassLeavesWaiting` | proc.c:1227-1248 | a run from boot to a state in which two processes wait in the second queue and a promotion is due, which then moves up only one of them |
| `SchedFair.PromotedDistance` | proc.c:1227-1248 | the distance prio * NPROC + position drops for every process waiting below the top queue in every pass |
| `SchedFair.PickDistance` | proc.c:583-626 | dispatching from its own queue brings a waiting process forward by exactly one, other dispatches leave it where it is |
| `SchedFair.NextDistance` | proc.c:577-670 | no step other than setpriority on the process itself pushes a waiting process back |
| `SchedFair.ReachesTopQueue` | proc.c:583-626 | a process that waits through MAX * NPROC promotion passes is in the top queue |
| `SchedFair.NoStarvation` | proc.c:577-627 | after those passes it is dispatched within NPROC scheduling decisions |
| `SchedBudget.NextBalanced` | proc.c:1250-1261 | every step keeps the books of every process balanced |
| `SchedBudget.BudgetAccounting` | proc.c:1185-1261 | over every run from boot, for every live process, priority and budget stay in range and the ticks charged since its creation are exactly one budget for each expiry, what was used beyond it then, what a new priority wrote off, and what is used of the present budget |
| `Sched.FindIn` | proc.c:801-852 | the search by pid over lists yields a process with that pid on one of them, and none exactly if there is no such process |
| `ProcTable.Table.UserInit` | proc.c:148-212 | the pointer table starts in the boot state, with init on the top ready queue |
| `ProcTable.Table.InsertHead` | proc.c:1033-1041 | the slot becomes the first of its list and every other list keeps its order; a null slot is refused |
| `ProcTable.Table.InsertTail` | proc.c:1043-1060 | the slot becomes the last of its list and every other list keeps its order; a null slot is refused |
| `ProcTable.Table.RemoveFromStateList` | proc.c:1062-1082 | exactly that slot leaves the list, whose order stays; a slot that is not on it is refused and nothing changes |
| `ProcTable.Table.RemoveFromReadyList` | proc.c:1102-1109 | the removal from the queue of the expected priority cannot panic |
| `ProcTable.Table.AllocProc` | proc.c:69-145 | the first free slot becomes an embryo with the next pid, or none is left and nothing changes |
| `SchedRuns.ForkFails` | proc.c:236-262 | a fork whose copy of the memory fails leaves every list as it was, with the slot the first free one again |
| `SchedRuns.ForkSucceeds` | proc.c:236-295 | one that succeeds makes the first free slot the last process of the top queue, a child with full budget and a new pid, and changes nothing else |
| `ProcTable.Table.Fork` | proc.c:236-295 | fork in place is one of these two, or changes nothing if there is no free slot |
| `ProcTable.Table.AbortEmbryo` | proc.c:236-295 | a failed fork puts the embryo back on the free list |
| `ProcTable.Table.PublishEmbryo` | proc.c:236-295 | the end of fork makes the embryo ready at the tail of the top queue |
| `ProcTable.Table.Yield` | proc.c:654-670 | the running process is charged, goes down a queue exactly if its budget is used up, and is the last of its queue; no list panic is reachable |
| `ProcTable.Table.Sleep` | proc.c:697-735 | the running process is charged and sleeps on the channel given; no list panic is reachable |
| `ProcTable.Table.Wakeup1` | proc.c:750-765 | exactly the sleepers on the channel become ready, in list order, although the loop unlinks what it walks over |
| `ProcTable.Table.Exit` | proc.c:343-408 | init panics; any other process wakes its parent, hands its children to init and becomes a zombie |
| `ProcTable.Table.Wait` | proc.c:455-521 | one round of wait reaps the first zombie child, or reports that there are no children, or sleeps on the channel of the process itself |
| `ProcTable.Table.PrioAdjust` | proc.c:1227-1248 | sleeping and running processes and the head of each lower queue go up one priority, and the next pass is due TICKS_TO_PROMOTE ticks later |
| `ProcTable.Table.Scheduler` | proc.c:577-627 | after a due promotion the head of the best non-empty queue runs; none does exactly if all queues are empty |
| `ProcTable.Table.Kill` | proc.c:801-852 | the process with the pid is marked, and made ready if it slept; -1 exactly if no list has it |
| `ProcTable.Table.SetPriority` | proc.c:1185-1225 | the process gets the priority and a full budget, at the tail of its new queue if ready, and nothing changes if it is in that queue; -1 exactly for a bad priority or a pid that is neither ready, running nor asleep |
| `SchedEffects.YieldEffect` | proc.c:654-670 | yield charges the time since the dispatch; less than the budget comes off it, and otherwise the process goes down one queue, if there is one, with a full budget; it is the last of the queue it then belongs to |
| `SchedEffects.SleepEffect` | proc.c:697-735 | sleep charges in the same way and makes the process the first sleeper, on the channel given |
| `SchedEffects.PickEffect` | proc.c:593-626 | the first process of the first queue that is not empty runs, with the clock noted; nothing else changes |
| `SchedEffects.NobodyToPick` | proc.c:593-626 | with all queues empty nothing changes |
| `SchedEffects.PassEffect` | proc.c:1227-1248 | a pass takes every sleeping and running process and the first of each lower queue up by exactly one, and those heads join the queue above at its end; every slot and list is given, and the next pass is due TICKS_TO_PROMOTE later |
| `SchedEffects.KillEffect` | proc.c:801-852 | the process found is marked and, if it slept, is the last of its queue; nothing else changes |
| `SchedEffects.KillFinds` | proc.c:801-852 | none is found exactly if no slot in use has the pid |
| `SchedEffects.SetPriorityEffect` | proc.c:1185-1225 | the process found has the priority and a full budget, and if ready is the last of its new queue; a ready process that has the priority already is left alone; nothing else changes |
| `SchedEffects.SetPriorityFinds` | proc.c:1185-1225 | none is found exactly if no ready, running or sleeping process has the pid |
| `SchedEffects.WakeLists` | proc.c:750-765 | those woken join the queues of their priorities at the end, in the order of the sleep list |
| `SchedEffects.ExitLists` | proc.c:343-408 | the exiting process is the first zombie, and nobody else joins or leaves the zombies, the free slots and the embryos |
| `SchedEffects.ReapLists` | proc.c:455-521 | wait reaps the first zombie on the list that is a child, and its slot is the next to be given out |
| `SchedSleep.SleepThenWake` | proc.c:697-765 | after sleep on a channel, wakeup of that channel makes the process ready and wakeup of any other leaves it asleep |
| `SchedSleep.SleepEnds` | proc.c:697-852 | a step ends a sleep exactly if it wakes the channel, kills the process, or is the exit that wakes a waiting parent or init; otherwise the channel stays |
| `SchedSleep.SleepsOn` | proc.c:697-765 | so it is over runs: while none of these happens the process sleeps on, on the same channel |
| `SchedSleep.WaiterWoken` | proc.c:343-521 | a process that wait put to sleep sleeps on its own channel as long as it sleeps, over any run, and then the exit of any child makes it ready |
| `CrashSafety.CommitHeader` | log.c:84-112 | the header that write_head puts on disk reads back as the blocks of the transaction, and no other block changes |
| `CrashSafety.CommitDurable` | log.c:189-199 | that one block write makes the whole transaction durable |
| `CrashSafety.InstallStep` | log.c:68-81 | copying a block home changes nothing durable, so recovery can start over at any point |
| `CrashSafety.ClearStep` | log.c:189-199 | once all blocks are home, clearing the header changes nothing durable either |
| `CrashSafety.StepRefines` | log.c:67-121 | every block write, crash and operation keeps the invariant and acts on the abstract store as announced: only the write of a non-empty header commits |
| `CrashSafety.CrashAtomicity` | log.c:67-199 | over any run with crashes between any two block writes, in commit or in recovery, the durable blocks are those of exactly the transactions whose header reached the disk |
| `CrashSafety.RecoveryCompletes` | log.c:114-121 | a recovery that is not interrupted leaves the home blocks equal to the durable ones and the log empty |
| `CrashSafety.RunIsRun` | log.c:67-199 | the disks that the code of commit and recovery is proved to leave behind are those of a run of the machine, write by write |
| `CrashSafety.CrashDuring` | log.c:189-199 | a crash after any single write of a commit or a recovery leaves a disk that can be recovered: to the state after the commit from the header write on, to the state before it until then |
| `CrashSafety.RunEndIs` | log.c:114-121 | left alone, a commit or a recovery ends with the log empty and the home blocks equal to the committed ones |
| `CrashSafety.OperationNotSplit` | log.c:124-171 | the writes of one operation go into one commit |
| `LogReserve.OpsBounded` | log.c:124-171 | over any run at most LOGSIZE / MAXOPBLOCKS operations are in progress, and end_op never finds a commit going on |
| `LogDistinct.StepKept` | log.c:124-140 | blocks logged plus the blocks that operations in progress may still add stay within LOGSIZE, if each logs at most MAXOPBLOCKS different ones |
| `LogDistinct.RunKept` | log.c:124-171 | so it is over whole runs |
| `LogDistinct.PanicsExactly` | log.c:210-230 | after such a run, with LOGSIZE data blocks, log_write panics exactly if the operation has logged all of its blocks and the log is full, and then for a block that is logged already |
| `LogDistinct.LeanNeverPanics` | log.c:210-230 | so it does not for an operation that has a block left |
| `LogDistinct.RelogPanics` | log.c:210-230 | a run in which it does |
| `LogDistinct.NoOverflow` | log.c:210-230 | with LOGSIZE data blocks no log_write panics in a run with at most MAXOPBLOCKS calls for each operation |
| `LogDistinct.CallsGetThrough` | log.c:210-230 | an operation whose calls name fewer than MAXOPBLOCKS different blocks before the last one gets through, whatever others have logged within their budgets |
| `LogReserve.Overflow` | log.c:210-230 | with fewer data blocks there is a run within the rules in which log_write panics |
| `LogReserve.MkfsOverflows` | mkfs.c:23-30 | such a run from the disk that mkfs makes |
| `BufferCache.Bcache.constructor` | bio.c:39-56 | the ring of buffers starts as a list of all of them, none holding a block |
| `BufferCache.Bcache.FindCached` | bio.c:61-95 | the search finds the buffer of the block if there is one |
| `BufferCache.Bcache.FindVictim` | bio.c:61-95 | from the least recently used end, the first buffer that is neither busy nor dirty, if there is one |
| `BufferCache.Bcache.Bget` | bio.c:61-95 | the one buffer of the block, or the least recently used clean free one; waits exactly if the block is held, gives up exactly if all buffers are pinned |
| `BufferCache.Bcache.Bread` | bio.c:98-108 | the buffer has the contents last written to the block, whatever was recycled before |
| `BufferCache.Bcache.Bwrite` | bio.c:111-118 | the block on disk becomes the buffer's data, as one write |
| `BufferCache.Bcache.Brelse` | bio.c:122-141 | the buffer is free and the most recently used; the list stays a permutation of all buffers |
| `BufferCache.Recycle` | bio.c:83-95 | giving a clean free buffer to another block loses nothing: the cache still agrees with a flat map of last-written contents |
| `Log.BufferLeft` | bio.c:83-95 | bget finds a buffer to recycle exactly if fewer than NBUF blocks are logged or held |
| `LogBuffers.CommitNeedsSpareBuffer` | param.h:10-12 | for a commit that is exactly if the blocks logged and the blocks others hold are together fewer than NBUF |
| `LogBuffers.NeverFull` | log.c:174-187 | if the largest transaction and what others hold leave a buffer, no run comes to a commit without one |
| `LogBuffers.FullRun` | log.c:124-171 | three operations within their budgets come to the commit of any blocks there is room for |
| `LogBuffers.CommitWithoutBuffer` | log.c:124-187 | while others hold some blocks, operations within their budgets can leave a commit without a buffer exactly if the largest transaction and these blocks make NBUF |
| `LogBuffers.EveryRegionPanics` | log.c:210-230 | for every size of the region some run within the rules reaches the panic of log_write or, with nothing held, that of bget |
| `LogBuffers.MkfsReaderPanics` | log.c:174-187 | on the disk that mkfs makes, a run that leaves a commit without a buffer while somebody reads one block |
| `Log.Logger.WriteHead` | log.c:100-112 | one block write, after which the header on disk names the blocks in memory |
| `Log.Logger.ReadHead` | log.c:84-95 | the blocks in memory are those that the header on disk names |
| `Log.Logger.WriteLog` | log.c:174-187 | the disk passes through the states of the machine that copies each block to the log; no buffer is left exactly if NBUF blocks are logged or held, and then nothing is written |
| `Log.Logger.InstallTrans` | log.c:68-81 | the disk passes through the states of the machine that copies each block home, which unpins it |
| `Log.Logger.Commit` | log.c:189-199 | the disk passes through exactly the states of the machine's commit, each of which recovers to the state before or to the one after; panics exactly if there are blocks to commit and no buffer is left |
| `Log.Logger.RecoverFromLog` | log.c:114-121 | from any disk a crash can leave, the disk passes through exactly the states of the machine's recovery, all with the same durable blocks, which are the home blocks at the end |
| `Log.InitLog` | log.c:52-65 | booting from such a disk starts the log empty, with disk and cache holding the durable blocks |
| `Log.Logger.LogWrite` | log.c:210-230 | the block is recorded once and pinned; panics exactly if the log is full or there is no operation |
| `Log.Logger.Update` | log.c:201-230 | reading, changing and logging a block is one step of the machine and writes nothing to disk; panics exactly if the log is full or a block not logged yet finds no buffer |
| `Log.Logger.BeginOp` | log.c:124-140 | goes ahead exactly if no commit is on and the reservation fits |
| `Log.Logger.EndOp` | log.c:144-171 | the last operation commits the group, with exactly the disk states of the machine, each of which recovers to all of it or nothing; panics exactly if that commit finds no buffer |
| `FsModel.WordSet` | fs.c:374-402 | an entry of an indirect block reads back as written and the other entries stay |
| `FsModel.SlotsDisjoint` | fs.c:374-402 | no block is held by two slots |
| `FsModel.AllocOwned` | fs.c:374-402 | putting a free block into an empty slot keeps each bit set exactly for metadata and blocks held by one slot |
| `FileBlocks.AllocKept` | fs.c:374-402 | allocation changes no block of any file |
| `FileWrites.WritingStep` | fs.c:483-513 | one round of writei extends the bytes written and leaves the other bytes and files alone |
| `FileWrites.WritingContents` | fs.c:483-513 | a finished write is the old file with the new bytes spliced in |
| `FileTrunc.TruncatedOwned` | fs.c:409-437 | truncation keeps block ownership |
| `FileTrunc.BlocksHeld` | fs.c:374-437 | a file without holes holds exactly as many blocks as its size needs, with the indirect block |
| `FileTrunc.ReadPiece` | fs.c:456-480 | neighbouring bytes of a block are neighbouring bytes of the file |
| `FileSystem.FileSys.Balloc` | fs.c:53-75 | the lowest free block, zeroed and marked; panics exactly if there is none |
| `FileSystem.FileSys.Bfree` | fs.c:78-93 | the block becomes free; panics exactly if it was |
| `FileSystem.FileSys.Bmap` | fs.c:374-402 | the address of a block of the file, allocating it and the indirect block when it is the next one; out of blocks exactly if fewer are free than needed |
| `FileSystem.FileSys.Iupdate` | fs.c:198-219 | the inode on disk is the one in memory |
| `FileSystem.FileSys.Writei` | fs.c:483-513 | for every offset and length: refused exactly past the end of the file or the largest size, otherwise the file is spliced, the other files stay, every block allocated is in the inode on disk, every disk block that changes is given to the log, the blocks logged and allocated are exactly those counted, and the inode block is logged last |
| `FileSystem.FileSys.Readi` | fs.c:456-480 | the slice of the file from the offset, as long as there are bytes; nothing changes; refused exactly past the end or if the sum wraps |
| `FileSystem.FileSys.Itrunc` | fs.c:409-437 | exactly the blocks of the file become free, the freeing panic is not reached, the other files stay, and every disk block that changes is given to the log |
| `FileSystem.FileSys.Iput` | fs.c:336-355 | the last reference to a file without links frees its blocks and its inode, any other changes nothing; every disk block that changes is given to the log |
| `FileSystem.UnloggedSame` | fs.c:374-513 | block by block, what an operation did not give to the log is unchanged on disk |
| `DiskFormat.DataRead` | fs.c:374-402 | a data block can be told from its words |
| `DiskFormat.MapRead` | fs.c:53-93 | a piece of the free map can be told from its words |
| `DiskFormat.InodesRead` | fs.h:57-72 | a block of inodes can, if their fields fit the types of struct dinode |
| `DiskFormat.WordFits` | fs.h:57-81 | what is put on the disk are words of 32 bits |
| `DiskFormat.KindsShareWords` | mkfs.c:109-111 | the kind of a block cannot be told: a zero block is data and a piece of free map |
| `DiskBytes.DataBytes` | bio.c:98-118 | the bytes of a data block are the bytes on the disk, in order |
| `DiskBytes.MapBits` | fs.c:53-93 | a block of the map has bit b % 8 of byte b / 8 set exactly if its block b is in use, and no bit past the end |
| `DiskBytes.MapWordBits` | fs.c:53-93 | by words of 32 bits it is bit b % 32 of word b / 32 |
| `DiskBytes.InodeBytes` | fs.h:57-69 | every field of the i-th inode of a block is at its offset in struct dinode, 64 * i bytes into the block |
| `DiskBytes.FileBytes` | fs.c:374-402 | byte p of a file is byte p % 512 of a block whose number is in the inode for the first ten blocks, and otherwise at its place in the block that the last address names |
| `FileCrash.MkfsFormat` | mkfs.c:93-103 | the layout of mkfs puts the file system behind the log, for any sizes that fit |
| `FileCrash.StoredOnce` | fs.h:57-81 | a disk holds at most one file system: free map, inodes and data blocks can be told from it |
| `FileCrash.EndStored` | fs.c:374-513 | when a group of operations ends with the blocks it logged as they should be, memory holds the new file system |
| `FileCrash.GroupsAtomic` | log.c:67-199 | through any run over any number of groups of operations, in any interleaving, with a crash and recoveries wherever they fall, the disk holds the file system after the last group that ended or the one before that group |
| `FileCrash.GroupCommits` | log.c:144-199 | without a crash the disk gets the one after it, and the log is empty again |
| `FileTransact.CanPerform` | log.c:124-230 | a group whose blocks fit the log can be begun, handed over, ended and committed |
| `FileTransact.LoggedRange` | fs.c:483-513 | the blocks a write gives to the log are blocks of the file system |
| `FileTransact.FreedRange` | fs.c:336-437 | so are those of the last iput, at most two where one block holds the free map |
| `FileTransact.WriteTransaction` | file.c:138-143 | writei in a group: after any crash the disk has the file system before the group or the sound one with the bytes spliced in; the group can be committed if its blocks fit; up to six blocks and a byte its calls of log_write get through |
| `FileTransact.PutTransaction` | file.c:75-77 | iput in a group: after any crash the file is there with all its blocks or gone with all of them; the group can be committed if its blocks fit |
| `FileTransact.WriteFile` | file.c:116-153 | filewrite: after a crash the disk has a sound file system in which the chunks written so far, or all but the last, are spliced in and the other files are as they were |
| `FileSystem.RefusedExactly` | fs.c:495-498 | the 32-bit tests of writei refuse exactly an offset past the end or an end past the largest size |
| `OpenFile.ChunkFitsLog` | file.c:125-150 | a chunk at any offset of a file without holes adds at most LOGSIZE blocks to the log |
| `OpenFile.ChunkBlocks` | file.c:125-150 | it touches at most 14 file blocks and allocates at most 13 |
| `OpenFile.WriteLogCount` | file.c:125-150 | every write of at least a byte logs exactly the file blocks touched, the map blocks of the new blocks, the indirect block if it got an entry and the inode block if the file grew, all different |
| `OpenFile.OperationFits` | file.c:125-150 | where one block holds the free map, the number is a function of file size, offset and length, and these decide if the write is within MAXOPBLOCKS |
| `OpenFile.LongestChunk` | file.c:125-150 | a chunk length is within MAXOPBLOCKS different blocks for all sizes and offsets exactly if it is at most six blocks and a byte |
| `OpenFile.ChunkOverOperation` | file.c:131-136 | a full chunk at the start of an empty file logs 16 blocks, more than MAXOPBLOCKS |
| `OpenFile.AcceptedAll` | file.c:116-153 | a chunked write is accepted whole exactly if it would be as one write |
| `OpenFile.NeededSum` | file.c:116-153 | the blocks that consecutive writes need add up to those of one write |
| `OpenFile.File.WriteChunk` | file.c:138-143 | one transaction of the loop splices the bytes in, leaves the other files alone, moves the offset past the bytes written and gives at most LOGSIZE blocks to the log, among them all that change |
| `OpenFile.File.Write` | file.c:116-153 | the chunks together splice in what is accepted and leave the other files alone, each in its own transaction from one sound file system to the next; the result is n exactly if that is all, and the panic for a short write is not reached |
| `Mkfs.DiskLayout` | mkfs.c:23-30 | behind boot block, superblock and log come the inode blocks, then the map blocks, then the data, and they do not overlap |
| `Mkfs.Disk.constructor` | mkfs.c:97-113 | the empty image is a sound file system |
| `Mkfs.Disk.Ialloc` | mkfs.c:223-240 | the next inode becomes an empty file of the type asked for, with one link, mode 0755 and no blocks, and the others stay |
| `Mkfs.Disk.Iappend` | mkfs.c:260-302 | the bytes are appended to the file across the direct and indirect blocks and the image stays sound; gives up exactly if the file gets too long or fewer blocks are left than it needs |
| `Mkfs.Disk.Balloc` | mkfs.c:242-256 | the bits of exactly the first blocks are set; refused if they do not fit one block |
| `Mkfs.Disk.Finish` | mkfs.c:158-165 | the finished image is a sound file system, from which the file system code starts, exactly if the size of the root directory was not a multiple of the block size |
| `Mkfs.RoundingHoles` | mkfs.c:158-163 | rounding the size of a file up leaves no hole exactly if it was not a multiple of the block size |
| `FreeList.Canonical` | umalloc.c:24-44 | a coalesced list is determined by its units |
| `FreeList.InsertSpec` | umalloc.c:33-42 | joining a block with its neighbours adds exactly its units and keeps the list sorted and coalesced |
| `FreeList.TakeSpec` | umalloc.c:75-82 | taking a block or its upper end removes exactly the units taken and keeps the list sorted and coalesced |
| `FreeList.TakeThenInsert` | umalloc.c:24-44 | freeing what was taken gives back the same list |
| `Umalloc.StopsAt` | umalloc.c:30-32 | the tests of the search hold exactly at the place where the address belongs |
| `Umalloc.NUnitsSuffice` | umalloc.c:69 | the block holds the bytes asked for exactly if the sum does not wrap around, and is no larger than needed |
| `Umalloc.SbrkArgExact` | umalloc.c:54 | sbrk gets to see the size meant exactly below 2^28 units |
| `Umalloc.Heap.FindPlace` | umalloc.c:30-32 | the search ends, from wherever the ring was left, before the place of the block |
| `Umalloc.Heap.Free` | umalloc.c:24-44 | the units of the block join the free list; ring, order, coalescing and the partition of the heap into free and live units are kept |
| `Umalloc.Heap.Morecore` | umalloc.c:46-61 | the units obtained are added to the free list, of which one block is large enough; only requests from 2^28 units on go astray |
| `Umalloc.Heap.Malloc` | umalloc.c:63-90 | a block of the size asked for that was not in use, with at most one request to the kernel, made exactly if no free block was large enough; 0 exactly if that is refused |
| `VmModel.DeallocAt` | vm.c:249-273 | exactly the pages of the range are unmapped, except those jumped over in the first page table after a missing one |
| `VmModel.DeallocAll` | vm.c:249-273 | the whole range is unmapped exactly if no page jumped over was mapped |
| `VmModel.JumpMisses` | vm.c:249-273 | an address space for which it is not |
| `VmModel.DeallocUpTo` | vm.c:245-273 | user memory that is one stretch from 0 is shrunk to one stretch |
| `VmModel.DeallocSound` | vm.c:249-273 | each page unmapped is on the free list once, and no page is lost or gained |
| `Vm.AddressSpace.constructor` | vm.c:129-136 | an address space without user memory over a range of pages, all but its directory free, each once |
| `Vm.AddressSpace.FreeRange` | kalloc.c:45-51 | every page of the range is on the free list once, linked through the pages |
| `Vm.AddressSpace.Kfree` | kalloc.c:58-77 | the page, filled with ones, goes to the front of the list linked through the free pages; panics exactly if the address is not that of a page or out of range |
| `Vm.AddressSpace.Kalloc` | kalloc.c:81-94 | the first free page, or 0 exactly if there is none |
| `Vm.AddressSpace.DeallocUvm` | vm.c:249-273 | the loop over addresses unmaps those pages, keeps every page to one use, leaves the contents of the pages still mapped alone, and its panics are not reached |
| `Vm.AddressSpace.MapPage` | vm.c:45-90 | the page is mapped, with a new page table if there was none, and nothing else changes; fails exactly if there is no page for the table |
| `Vm.AddressSpace.AllocPage` | vm.c:230-241 | one round of the loop: page and page table, or which of the two was missing |
| `Vm.AddressSpace.AllocUvm` | vm.c:220-243 | grows user memory to one stretch with exactly the pages needed, all new ones full of zeros; failing for a page restores it and loses none; failing for a page table loses one page, and is reported as success exactly for the last page, with the pages before it full of zeros; in every case the memory there was before and all other pages hold what they held |
| `Vm.AddressSpace.CopyUvm` | vm.c:310-342 | the child has a page of its own with the same contents for each page of the parent exactly if there are enough pages; otherwise all go back, except that one is lost exactly if it was a page table that was missing; its panics are not reached |
| `Vm.PageLost` | vm.c:220-243 | with one free page and no page table, allocuvm reports success although nothing is mapped and the page is lost |
| `Vm.AddressSpace.FreeVm` | vm.c:277-292 | every page of the address space is on the free list exactly once |
| `Grep.HereFirst` | grep.c:84-106 | a list of items matches exactly if its first item takes some characters and the others match after them |
| `Grep.Match` | grep.c:72-81 | true exactly if the text can be cut into pieces for the items, at its start after a caret and anywhere otherwise |
| `Grep.MatchHere` | grep.c:84-95 | true exactly if the items of the pattern can be matched from here |
| `Grep.MatchStar` | grep.c:98-106 | true exactly if some number of the character and then the rest can be matched from here |
| `Pipe.RunFifo` | pipe.c:75-118 | over any interleaving, what was in the ring and then written is what is read and then left in it |
| `Pipe.PipeFifo` | pipe.c:75-118 | the bytes read are a prefix of those written, at most PIPESIZE behind |
| `Pipe.WrapPlace` | pipe.c:89-113 | the place in the ring does not jump when a counter wraps around |
| `Pipe.PipeDev.constructor` | pipe.c:21-55 | a new pipe is empty and open at both ends, and nobody sleeps |
| `Pipe.PipeDev.Close` | pipe.c:57-72 | the pipe is freed exactly when both ends are closed, and whoever waited at the other end is awake |
| `Pipe.PipeDev.Write` | pipe.c:75-95 | the bytes copied join the queue in order; sleeps or fails only if the pipe is full; wakes the readers unless it fails; so if nobody slept without a reason, nobody does afterwards, exactly unless a killed process had more to write than fits while a reader slept |
| `Pipe.PipeDev.Read` | pipe.c:97-118 | the first bytes of the queue; sleeps exactly if it is empty, can be written and the process is not killed, reads the end of the file exactly if it is empty and cannot; wakes the writers when done; if nobody slept without a reason, nobody does afterwards |
| `Pipe.ForgottenReader` | pipe.c:75-95 | from a new pipe, a waiting reader and then a killed writer with more than PIPESIZE bytes leave the reader asleep beside a full pipe |
| `ShellGrammar.WordsOrdered` | sh.c:362-405 | words are apart from each other |
| `ShellGrammar.WordsCover` | sh.c:362-405 | every word character is in a word |
| `ShellGrammar.LineYields` | sh.c:441-543 | a command uses every word of its text exactly once, and nothing else |
| `ShellOrder.LineOrder` | sh.c:441-543 | in every command of a line the arguments stand in the order of the text, the file of an outer redirection behind that of an inner one, the words of both sides of a bar or semicolon on their sides of it, those of a background command before its ampersand, and each file behind the operator that decides how it is opened |
| `ShellSpec.SimpleReaches` | sh.c:512-543 | a derivation of a simple command leads the parser through the same words and redirections |
| `ShellSpec.LineReaches` | sh.c:441-543 | every line of the language whose commands do not have too many arguments is accepted, as what it is |
| `ShellSpec.Unambiguous` | sh.c:441-543 | a line has at most one meaning |
| `ShellParser.GetToken` | sh.c:362-405 | the next token, its kind and its ends, and the white space around it |
| `ShellParser.Peek` | sh.c:407-417 | whether the next character is one of these, past white space |
| `ShellParser.ParseRedirs` | sh.c:471-494 | redirections wrap the command in the order they stand in; fails exactly if a file name is missing |
| `ShellParser.ParseExec` | sh.c:512-543 | an accepted stretch is a simple command or a block, with fewer than MAXARGS arguments in the order of the text, and the result is that of the specification |
| `ShellParser.ParseBlock` | sh.c:496-510 | an accepted stretch is a line in parentheses and redirections |
| `ShellParser.ParsePipe` | sh.c:458-469 | an accepted stretch is commands joined by bars, to the right |
| `ShellParser.ParseLine` | sh.c:441-456 | an accepted stretch is a line of the language, the result is that of the specification, and the parser ends |
| `ShellParser.NulTerminate` | sh.c:546-590 | a NUL is written at the end of every word and nowhere else |
| `ShellParser.SpansDisjoint` | sh.c:424-590 | no two words of a command touch |
| `ShellParser.WordStrings` | sh.c:424-590 | every NUL falls outside of all words, so each of them is a string of its own |
| `ShellParser.ParseCmd` | sh.c:424-439 | exactly the lines of the language are accepted, and then every argument and file name is its word of the line, in the order of the line; a rejected line is untouched |

## Left out

- Spinlocks and interrupt flags: a locked region is one step.
- Devices, boot and interrupt code: a block read or write is one step, and device files are excluded by a precondition.
- Path lookup, directories, system calls and exec: argument checks around what is modelled.
- chmod, chown and chgrp: thin field updates.
- The inode cache (iget, ilock, iunlock, reference counts): Iput takes as a parameter whether the reference is the last.
- ialloc of fs.c: a search like that of balloc.
- The shifts by which balloc and bfree reach a bit of the free map: the map is a sequence of bits, and DiskBytes says where they are.
- Wrap-around of ticks and of the next pid: both are unbounded.
- kill against its table scan: the two differ for pid 0 and for stale pids.
- sys_sleep: it looks at the ticks outside of any lock.
- Waiting for a buffer during a commit: the buffers held by others are a parameter of the log's methods.
- inituvm, loaduvm, permissions and the kernel's own mappings: the page tables carry page numbers only.
- Other users of sbrk: each grant lies above all memory obtained before.
- grep's line buffer, printing and the other user programs: input and output.
- runcmd: it runs what the parser built.
- Mkfs.Disk.Iappend: stops when the disk is full, where the program would go on writing past the end of the image.
- Umalloc.Heap.Malloc: when a request from 2 GB on goes astray, the model stops at the header written outside of the memory obtained.
