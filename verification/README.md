# Verified model of the project_1c kernel

This project models the hard parts of the xv6 kernel for RISC-V in
`projects/project_1c`, with its multi-level feedback queue scheduler, two of its
user programs and the tool that makes its disk image, and proves properties of
that model. `dafny verify dfyconfig.toml` checks everything.

Code that updates its state in place is modelled by classes and methods with the
source's fields, branches and loops. Each method is proved against a value-level
model of the same component, and the properties are theorems about that model:
about every step, every reachable state, every run or every input.

| files | models |
|---|---|
| LogSpec, LogMachine, LogProof, LogAdmission, LogCode | the write-ahead log (`kernel/log.c`): a transactional store, a machine whose steps are single block writes, the refinement between the two with crashes anywhere, admission, and the code |
| Bio | the buffer cache (`kernel/bio.c`) |
| HeapModel, Umalloc | the user heap allocator (`user/umalloc.c`) |
| PageTable, Vm, UserCopy, ProcMemory | Sv39 page tables, the page allocator, the copies between kernel and user space, and who owns which page (`kernel/vm.c`, `kernel/kalloc.c`, `kernel/riscv.h`, `kernel/proc.c`) |
| FsDisk, FsModel, FsFiles, FileSystem, FileWrite | blocks, inodes and files (`kernel/fs.c`, `kernel/file.c`) |
| CrashSafe | file operations sharing the log, with crashes |
| BufferUse | how many buffers of the cache the log leaves |
| MkFs | the initial image (`mkfs/mkfs.c`) |
| Directory | names in a directory, and those mkfs puts there (`kernel/fs.c`) |
| Cases | inputs on which the file system and mkfs break their promises |
| Queue, Mlfq, Proc | the run queues and the scheduler (`kernel/queue.c`, `kernel/queue.h`, `kernel/proc.c`) |
| SleepWait, Family | sleep, wakeup, exit, wait, reparent and fork, and whose child a process is (`kernel/proc.c`) |
| Virtio | the descriptor rings of the disk driver (`kernel/virtio_disk.c`) |
| Console | the console line discipline (`kernel/console.c`) |
| Grep | the pattern matcher and its buffering loop (`user/grep.c`) |
| ShellSyntax, ShellLex, ShellGrammar, Shell | the shell's tokens, its grammar and its parser (`user/sh.c`) |
| Common | constants and facts several of these share |

## Main results

- **Crash atomicity** (`LogProof.CrashAtomicity`). From any disk with a readable
  log header, over every run of interleaved operations, group commits, crashes
  between any two block writes and recoveries that are themselves cut short, what
  recovery leaves is the state after a whole number of group commits, including
  every one whose header write took place. Each operation is there in full or
  not at all. The methods of `LogCode.Log` leave traces of that machine's steps.
- **Crash safety of files** (`CrashSafe.Begin`, `WriteIn`, `TruncateIn`, `End`,
  `WriteFile`, `Boot`). Transactions of filewrite and itrunc run through the real
  log: one at a time on any log with room for one, and on a log of more than
  LOGSIZE blocks any number at a time, committed in groups. Wherever the machine
  stops, recovery finds a consistent file system: the one at the last commit, or
  the present one while a commit is going on. A whole filewrite, cut short
  anywhere, leaves a prefix of its data.
- **Heap** (`HeapModel.FreeUndoesMalloc`, `HeapModel.FreeListIsCanonical`,
  `Umalloc.Allocator.Malloc`). The free list is one address-ordered circle without
  adjacent blocks, and live and free blocks partition all memory obtained. It is
  determined by which memory is free, so free undoes malloc exactly. malloc takes
  the first fit after the roving pointer and terminates after at most one sbrk.
  No unit of a block someone holds is ever written.
- **Page tables** (`Vm`, `UserCopy`). The three-level tree is a flat map, and each
  call changes exactly the pages of its range. Failing allocations roll back.
  uvmfree returns every page once. A process sees one memory of bytes: copyout
  and copyin write and read just that, and after uvmcopy a child sees what its
  parent saw.
- **Page conservation** (`ProcMemory.OneChanges`, `ProcMemory.Growproc`,
  `ProcMemory.ForkCopy`). Over all processes, each physical page is free, part of
  one page table, the frame of one page of one process, or the kernel's. Every
  call keeps this, and changes nothing any other process sees.
- **Files** (`FileSystem.FileSystem.Writei`, `Readi`, `Itrunc`). An inode's blocks
  are one byte sequence. A bitmap bit is set exactly for metadata and for blocks
  with exactly one reference. No hole ever appears, bfree never meets a free
  block, and no transaction of filewrite exceeds MAXOPBLOCKS.
- **Scheduler** (`Mlfq.SchedulerInvariant`, `ProcTable.Scheduler`). Over every
  one-hart run from boot that dispatches only from a non-empty table, a slot is in
  exactly one queue, the one for its level, iff it is runnable and not retained;
  the linked table represents these queues.
- **No lost wakeup, no orphans** (`SleepWait.NoLostWakeup`, `Family.NoOrphans`),
  over all interleavings of any number of processes. wait fails exactly without
  children (`Family.WaitGivesUpExactly`).
- **Buffer cache** (`Bio`). One buffer per block, a ring sorted by time of
  release, and bread always yields the latest contents.
- **Virtio** (`Virtio.AtMostTwo`, `Virtio.NotBusyMeansDone`). Free descriptors and
  chains of three partition the table, the rings are never overrun, and 16-bit
  wrap-around is harmless.
- **Shell** (`ShellGrammar.ParsesExactly`, `ShellLex.LexExactly`, `Shell.Parsecmd`).
  The parser accepts exactly the lines of a grammar, and gives each the command it
  means there.
- **Names** (`Directory.FindOnImage`). What mkfs puts on an image the kernel finds
  there under its name.
- **Console, grep** (`Console.Console.Consoleintr`,
  `Console.Console.Consoleread`, `Grep.RightExactlyWhenLinesFit`).

## Where the code does not do what is promised

Each point is a theorem about the code as it is.

- `log_write` tests the capacity of the log before it looks for a block it could
  absorb, so a second write of a logged block can be refused
  (`LogAdmission.RefusedExactlyWhenFull`, `LogAdmission.AbsorbedWriteRefused`).
- begin_op promises LOGSIZE data blocks. Operations that keep to their share never
  have a new block refused if and only if log.size > LOGSIZE
  (`LogAdmission.NewBlocksFitExactly`); mkfs makes a log of LOGSIZE blocks, header
  included.
- `dequeue` counts an unsigned index down to 0 and so never recognises an empty
  table: it is right if and only if some queue is non-empty (`Queue.Dequeue`). What
  it does otherwise depends on stale links (`Queue.EmptyTableIsNotDetected`). An
  empty table arises as soon as the only process sleeps (`Mlfq.IdleIsReachable`),
  and then it writes outside the table (`Queue.IdleTable`). The theorems about
  runs cover runs that dispatch from a non-empty table.
- The README of the repository says that the highest level always runs (rule 1),
  that a boost moves all processes (rule 5) and that a process whose nice value
  changes goes to the back of its new queue (rule 6). In the code a process that
  has not used up its quantum runs on whatever waits above it
  (`Mlfq.RuleOneSinceDispatch`, `Mlfq.RuleOneFails`), a boost reaches
  every process if and only if those not runnable were at their levels already
  (`Mlfq.BoostReachesAll`, `Mlfq.RuleFiveFails`), and nice queues its caller at the
  new level if and only if the call falls on a boost, at its back if and only if
  no runnable slot above has that level (`Mlfq.NiceQueuesAtNewLevel`). Rule 4
  holds (`Mlfq.AllotmentIsUsedUp`).
- `writei` with a source that fails leaves bytes in the buffer that its result does
  not count, if and only if the source fails inside a block. They show in the file
  if and only if they replace others within its old size, and they escape the log
  if and only if they replace others of a block that existed and was not in the log
  (`FileSystem.FileSystem.Writei`; one such call in `Cases.FailingSource`).
- growproc answers 0 although the process has not got the size asked for, if and
  only if that is negative or does not fit an unsigned int; it has then done nothing
  (`ProcMemory.Growproc`).
- NBUF is LOGSIZE: a log that holds LOGSIZE blocks leaves no buffer for any other
  block (`BufferUse.FullLogTakesAll`). It can, if it is as large as begin_op
  assumes.
- malloc asks sbrk for the size it needs if and only if the request is at most
  0x7FFFFFE0 bytes, sbrk taking an int; a larger request it does not refuse
  (`Umalloc.AsksRightExactly`, `Umalloc.Allocator.Malloc`).
- mkfs rounds the size of the root directory up by at least one byte. If and only
  if its number of entries is a multiple of 64, the last block is a hole
  (`MkFs.Make`; such an image in `Cases.ImageWithHole`).
- grep prints the matching lines for every pattern if and only if every line fits
  1023 bytes with its newline and has no NUL (`Grep.RightExactlyWhenLinesFit`).
- In `consoleintr` the newline test of ^U never fails, as no line end is ever left
  between w and e (`Console.LastTyped`).

## Model

| member | source | states |
|---|---|---|
| LogSpec.OperationsAreAtomic | projects/project_1c/kernel/log.c:125-203 | In every run, crashes included, an operation still running has nothing durable, and an ended one has all its updates durable, all waiting, or none. |
| LogSpec.DurableOnlyGrows | projects/project_1c/kernel/log.c:193-203 | The durable updates after a prefix of a run are a prefix of those after the whole run: nothing is taken back or reordered. |
| LogSpec.NoCommitInsideOperation | projects/project_1c/kernel/log.c:147-175 | An operation active at two moments of a run has seen no commit and no crash in between. |
| LogMachine.PutHead | projects/project_1c/kernel/log.c:85-114 | What write_head leaves in the header block, read_head reads back as the same list, whatever the block held before. |
| LogProof.HeadWrite | projects/project_1c/kernel/log.c:99-114 | The commit point: one header write replaces what recovery would leave in exactly the listed blocks by their log copies, and in no other block. |
| LogProof.InstallWrite | projects/project_1c/kernel/log.c:67-83 | Copying one logged block home leaves what recovery would produce unchanged for every home block, so install_trans can be cut short and run again. |
| LogProof.InvStep | projects/project_1c/kernel/log.c:67-235 | Every step (bread, recycling, begin_op, log_write, end_op, each single block write of commit and recovery, crash) keeps the invariant on header, log slots, pins and cache. |
| LogProof.ReadIsOnDisk | projects/project_1c/kernel/log.c:178-191 | Once every block is copied, what operations read is on the disk: in the log for the listed blocks, at home for the others. |
| LogProof.CommitVisible | projects/project_1c/kernel/log.c:193-203 | The header write makes what operations read, pending updates included, what a crash would leave. |
| LogProof.RefineStep | projects/project_1c/kernel/log.c:67-235 | Each step of the machine is a step the transactional specification allows, and the two stay related: recovered contents are the committed updates, reads are those plus the pending ones. |
| LogProof.CrashAtomicity | projects/project_1c/kernel/log.c:67-235 | Crash atomicity over every run from any disk with a readable header: crashes between any two block writes, recovery itself cut short any number of times; the recovered home blocks are always the state after a whole number of group commits, including every one whose header write took place. |
| LogProof.OperationSurvivesWhole | projects/project_1c/kernel/log.c:67-203 | For each operation and each moment, what recovery would leave contains the operation in full or not at all, and nothing of one still running. |
| LogProof.CommitIsDurable | projects/project_1c/kernel/log.c:193-203 | When commit returns nothing is pending and the disk itself holds every committed update. |
| LogAdmission.ReservationsFit | projects/project_1c/kernel/log.c:127-175 | In every run whose operations log at most MAXOPBLOCKS blocks each, lh.n plus the unused reservations of the outstanding operations never exceeds LOGSIZE, and the logged block numbers stay distinct. |
| LogAdmission.RefusedExactlyWhenFull | projects/project_1c/kernel/log.c:214-235 | With log.size > LOGSIZE, log_write refuses exactly when lh.n is LOGSIZE, and then only a block the operation has already logged: no write that needs a new slot is refused. |
| LogAdmission.AbsorbedWriteRefused | projects/project_1c/kernel/log.c:220-228 | The exception is real: the capacity test precedes absorption, so after some run within all promises a second write of a block already in the log panics, however large the log. |
| LogAdmission.SmallLogRefuses | projects/project_1c/mkfs/mkfs.c:25-25 | On every clean log of at most LOGSIZE blocks, header included (mkfs makes LOGSIZE), on a disk with LOGSIZE blocks behind it, some run within all promises ends in the refusal of a block that is new to the log. |
| LogAdmission.LargeLogAccepts | projects/project_1c/kernel/log.c:214-235 | On a log of more than LOGSIZE blocks no run within all promises does. |
| LogAdmission.NewBlocksFitExactly | projects/project_1c/kernel/log.c:126-235 | Over all runs within the promises from a clean log, on a disk with LOGSIZE blocks behind it, no write of a block new to the log is refused if and only if LOGSIZE < log.size. |
| LogCode.Log.constructor | projects/project_1c/kernel/log.c:54-65 | Power-on state over any disk with a readable header. |
| LogCode.Log.Bread | projects/project_1c/kernel/bio.c:92-103 | Returns what the cache holds or else the disk block, caches it, and leaves every other buffer alone. |
| LogCode.Log.BeginOp | projects/project_1c/kernel/log.c:131-140 | One pass of the loop: admits exactly when no commit is running and lh.n + (outstanding + 1) * MAXOPBLOCKS <= LOGSIZE; the operation admitted is new; otherwise nothing changes. |
| LogCode.Log.LogWrite | projects/project_1c/kernel/log.c:214-235 | Both panics and the logging case, told apart exactly; when logged, one Write step of the machine. |
| LogCode.Log.WriteLog | projects/project_1c/kernel/log.c:178-191 | All lh.n blocks are copied, invisibly. |
| LogCode.Log.WriteHead | projects/project_1c/kernel/log.c:102-114 | With entries it is the commit step of the specification; with none it empties the log invisibly. |
| LogCode.Log.InstallTrans | projects/project_1c/kernel/log.c:67-83 | All entries are installed, invisibly. |
| LogCode.Log.ReadHead | projects/project_1c/kernel/log.c:85-97 | Recovery starts with the list the disk holds. |
| LogCode.Log.Recover | projects/project_1c/kernel/log.c:116-123 | Afterwards the log is empty and every home block on disk is what it was to be recovered to. |
| LogCode.Log.Commit | projects/project_1c/kernel/log.c:193-203 | Exactly one commit step of the specification; the log is empty afterwards. |
| LogCode.Log.EndOp | projects/project_1c/kernel/log.c:146-175 | If operations remain, only the End step happens and the disk is untouched; after the last one every home block on disk is durable and holds what operations last read. |
| LogCode.Log.Crash | projects/project_1c/kernel/log.c:116-123 | Whenever the machine stops, what recovery will leave is what it would have left just before. |
| LogCode.Log.ViewsFollowTrace | projects/project_1c/kernel/log.c:67-235 | Both views depend only on the committed and pending updates of the specification. |
| LogCode.Log.CleanLog | projects/project_1c/kernel/log.c:193-203 | With an empty log the disk holds both views. |
| HeapModel.FreeKeeps | projects/project_1c/user/umalloc.c:24-44 | free takes back exactly that block, keeps the circle, and leaves no two free blocks adjacent. |
| HeapModel.TakeKeeps | projects/project_1c/user/umalloc.c:74-85 | Carving a block out of a free one hands out units no one holds and keeps order and partition. |
| HeapModel.GrowKeeps | projects/project_1c/user/umalloc.c:46-61 | A region obtained from sbrk above the old break joins the partition as one block and changes no other. |
| HeapModel.FreeListIsCanonical | projects/project_1c/user/umalloc.c:24-90 | Whatever calls led there, the set of free units determines the whole free list: blocks, sizes and links. |
| HeapModel.FreeUndoesMalloc | projects/project_1c/user/umalloc.c:24-90 | Freeing what malloc just returned restores the free list, header by header, whatever was split, unlinked and merged on the way. |
| HeapModel.TakeKeepsHeld | projects/project_1c/user/umalloc.c:74-85 | malloc leaves every unit, header and payload, of every block someone holds as it was. |
| HeapModel.FreeKeepsHeld | projects/project_1c/user/umalloc.c:24-44 | So does free, of every block that stays with its holder. |
| Umalloc.UnitsFit | projects/project_1c/user/umalloc.c:69-69 | The rounded-up unit count holds the payload and wastes less than one unit. |
| Umalloc.AsksRightExactly | projects/project_1c/user/umalloc.c:46-57 | sbrk is asked for the number of bytes needed if and only if the request is at most 0x7FFFFFE0 bytes; otherwise for at most one unit, zero or a negative amount. |
| Umalloc.Allocator.constructor | projects/project_1c/user/umalloc.c:21-22 | A fresh program: no free list, nothing handed out. |
| Umalloc.Allocator.Free | projects/project_1c/user/umalloc.c:24-44 | The new heap is the old one with the block inserted after freep and merged; live blocks lose exactly this one; memory obtained is unchanged; nothing is written but headers of free blocks and that of the block freed, so every other block keeps its contents. |
| Umalloc.Allocator.Morecore | projects/project_1c/user/umalloc.c:46-61 | Refused: nothing changes. Granted: at least 4096 fresh units are free, live blocks are the same, contents included, and a block large enough for the request exists. If the size does not survive the conversion to the int of sbrk, that is told apart. |
| Umalloc.Allocator.Search | projects/project_1c/user/umalloc.c:74-89 | Terminates after at most one sbrk, asked for only if nothing fits; returns NULL exactly when nothing fits and sbrk refuses or was asked for the wrong size; otherwise the first fitting block after freep, going round; of the memory there was, only headers of free blocks and that of the block returned are written. |
| Umalloc.Allocator.Malloc | projects/project_1c/user/umalloc.c:63-90 | For every unsigned request, first call included: the block was free or fresh and no one held it; every unit of every other live block, and all memory that is not malloc's, is as it was; memory grows only by the sbrk region, and what sbrk is asked for is exact. |
| Queue.EnqueueBack | projects/project_1c/kernel/queue.c:83-99 | The table afterwards represents the three sequences with the process at the back of the given one. |
| Queue.RemovePid | projects/project_1c/kernel/queue.c:141-151 | For any slot, queued or not: the four writes are made if both links lead into the table, and otherwise the first write outside it is reported. |
| Queue.UnlinkFront | projects/project_1c/kernel/queue.c:141-151 | For the front of a queue they do, and the table then represents the sequences without it. |
| Queue.NonEmptyTest | projects/project_1c/kernel/queue.c:10-11 | The nonempty macro tells exactly whether the queue has a process. |
| Queue.Dequeue | projects/project_1c/kernel/queue.c:107-133 | For every table: a process of some queue is returned if and only if some queue is non-empty, and then it is the front of the highest one, which is removed; on an empty table, what the probes beyond QUEUE_LOW come to. |
| Queue.EmptyTableIsNotDetected | projects/project_1c/kernel/queue.c:112-124 | On an empty table the unsigned count-down walks down the even process entries from 62: the first whose stale next is below NPROC names the slot taken or written through; if there is none, and only then, entry UINT64 - 2 is read. EMPTY is never returned. |
| Queue.Initialize | projects/project_1c/kernel/queue.c:159-169 | Three empty queues, whatever links the table held; process entries are left as they were. |
| Queue.IdleTable | projects/project_1c/kernel/queue.c:83-151 | The table once init has been queued, dispatched and gone to sleep, as after boot: dequeue picks slot 0 again, whose links are 999, and writes outside the table. |
| Mlfq.InvStep | projects/project_1c/kernel/proc.c:48-796 | Every event (allocation, fork, dispatch, tick, nice, sleep, exit, wakeup, kill) keeps: a slot is in exactly one queue, the one for p->queue, iff it is RUNNABLE and not retained; p->queue is at most the nice level; runtime is below the quantum. |
| Mlfq.SchedulerInvariant | projects/project_1c/kernel/proc.c:558-796 | It holds in every state of every one-hart run from boot that dispatches only from a non-empty table. |
| Mlfq.IdleIsReachable | projects/project_1c/kernel/proc.c:565-578 | Launching one process and letting it sleep leads to a round of the scheduler with an empty table. |
| Mlfq.KickedDispatchIsHighest | projects/project_1c/kernel/proc.c:571-581 | When the last process was kicked, the process dispatched is the longest waiting one at the highest level with a runnable process. |
| Mlfq.RetainedDispatchIgnoresLevels | projects/project_1c/kernel/proc.c:571-584 | When it was not, it runs again, and rule 1 of the README holds exactly if every queue above its level is empty. |
| Mlfq.RuleOneSinceDispatch | projects/project_1c/kernel/proc.c:571-598 | Over runs: a process taken from its queue keeps the CPU through any events and is dispatched again unkicked at a level no lower; rule 1 holds then if and only if no event in between has made a process runnable above it. |
| Mlfq.RuleOneFails | projects/project_1c/kernel/proc.c:571-584 | A run from boot in which rule 1 fails: a retained process at LOW runs on while one waits at MEDIUM. |
| Mlfq.NiceBetweenBoosts | projects/project_1c/kernel/proc.c:90-116 | Between boosts: at HIGH the caller of nice is charged at once and queued at MEDIUM, otherwise it keeps the CPU and is in no queue. |
| Mlfq.NiceQueuesAtNewLevel | projects/project_1c/kernel/proc.c:90-116 | Rule 6 exactly: the caller is queued at its new level if and only if the call falls on a boost, and is at the back of that queue if and only if, moreover, no runnable slot above its own has that nice level. |
| Mlfq.BoostRebuildsQueues | projects/project_1c/kernel/proc.c:678-695 | After a boost each queue is exactly the runnable slots of that nice level in slot order, with runtime 0; the level of every other process is untouched. |
| Mlfq.BoostReachesAll | projects/project_1c/kernel/proc.c:678-695 | Rule 5 exactly: after a boost every process is at its nice level if and only if every one that is not runnable was there before. |
| Mlfq.RuleFiveFails | projects/project_1c/kernel/proc.c:678-695 | A run from boot after whose boost a sleeping process of nice -20 is still at MEDIUM. |
| Mlfq.LevelCountsTicksOnly | projects/project_1c/kernel/proc.c:640-667 | Whatever else happens in a run, sleeping and waking included, a process's level and runtime depend only on the ticks it has used since it was last moved otherwise. |
| Mlfq.Allotment | projects/project_1c/kernel/queue.h:13-14 | Those functions of the tick count in closed form: one tick at HIGH, ten at MEDIUM, then LOW. |
| Mlfq.AllotmentIsUsedUp | projects/project_1c/kernel/proc.c:649-662 | Rule 4 of the README over whole runs: the level is lowered exactly when the allotment is used up, however it was used. |
| Mlfq.QueuesAreFifo | projects/project_1c/kernel/queue.c:83-133 | Each queue is first in, first out until a boost, as rule 2 of the README asks: only a dispatch takes anything from one, its front, and whatever is queued goes to the back. |
| Mlfq.WakesSleepers | projects/project_1c/kernel/proc.c:756-771 | wakeup makes runnable exactly the processes asleep on the channel, the caller apart, and puts each at the back of the queue for its level, in slot order. |
| Mlfq.KillsFirst | projects/project_1c/kernel/proc.c:776-796 | kill marks the first process with the pid and, if it sleeps on any channel, queues it at its level. |
| ProcTable.Scheduler.constructor | projects/project_1c/kernel/proc.c:135-150 | The zeroed tables after procinit are the initial state of the machine. |
| ProcTable.Scheduler.MakeReady | projects/project_1c/kernel/proc.c:48-51 | make_runnable is the machine's step of that name. |
| ProcTable.Scheduler.AllocProc | projects/project_1c/kernel/proc.c:200-250 | The lowest unused slot gets the pid and the level of its nice value, or there is none; if memory runs out it is unused again; only that slot changes. |
| ProcTable.Scheduler.FreeProc | projects/project_1c/kernel/proc.c:264-283 | The slot is unused again and in no queue. |
| ProcTable.Scheduler.StartProc | projects/project_1c/kernel/proc.c:433-437 | The new process becomes runnable, at the back of the queue for its level; nothing else changes. |
| ProcTable.Scheduler.Schedule | projects/project_1c/kernel/proc.c:571-600 | A round of the scheduler over the real qtable is the machine's Dispatch, unless a process is to be chosen from an empty table; then the slot run, if any, is the one dequeue strays to. |
| ProcTable.Scheduler.YieldCpu | projects/project_1c/kernel/proc.c:634-700 | yield as a whole. |
| ProcTable.Scheduler.TimerTick | projects/project_1c/kernel/trap.c:157-163 | A timer interrupt advances the clock by one and makes the running process yield; with none running nothing else changes. |
| ProcTable.Scheduler.SysNice | projects/project_1c/kernel/proc.c:90-116 | The nice value moves by the increment as far as its range goes and is returned; the process is relabelled and yields. |
| ProcTable.Scheduler.SleepOn | projects/project_1c/kernel/proc.c:740-744 | The running process sleeps on the channel and leaves the CPU; no queue and no other process changes. |
| ProcTable.Scheduler.ExitProc | projects/project_1c/kernel/proc.c:490-498 | The running process is a zombie and leaves the CPU; no queue and no other process changes. |
| ProcTable.Scheduler.WakeUp | projects/project_1c/kernel/proc.c:756-771 | Every process but the caller that was asleep on the channel is runnable and otherwise as it was, and no other process has changed; each queue has just these added at its back, in slot order. |
| ProcTable.Scheduler.KillPid | projects/project_1c/kernel/proc.c:776-796 | The first slot with the pid is marked and, if asleep, runnable and queued; nothing else changes; the result says whether there was one. |
| PageTable.PteRoundTrip | projects/project_1c/kernel/riscv.h:347-352 | PTE2PA undoes PA2PTE, the flags read back, and an entry is a leaf iff some of R, W, X is given. |
| PageTable.PXIsIndex | projects/project_1c/kernel/riscv.h:354-357 | The index macro on addresses is the index of the page number, below 512. |
| PageTable.IndicesAreInjective | projects/project_1c/kernel/riscv.h:354-363 | Below MAXVA the three indices together determine the page. |
| PageTable.SetLeaf | projects/project_1c/kernel/vm.c:153-153 | A store through a last-level entry changes the flat map at that one page. |
| PageTable.GrowLookup | projects/project_1c/kernel/vm.c:91-94 | A page-table page added by walk changes the flat map nowhere. |
| Vm.Memory.constructor | projects/project_1c/kernel/kalloc.c:26-31 | No page is free before kinit. |
| Vm.Memory.FreeRange | projects/project_1c/kernel/kalloc.c:33-40 | Exactly the whole pages of the range are on the free list, the last first, ahead of what was there. |
| Vm.Memory.Kalloc | projects/project_1c/kernel/kalloc.c:65-82 | Takes the first page of the linked list, filled with 5s; fails exactly when the list is empty; writes nothing else. |
| Vm.Memory.Kfree | projects/project_1c/kernel/kalloc.c:46-63 | The page is filled with 1s but for its link and becomes the first free one; writes nothing else. |
| Vm.Memory.Walk | projects/project_1c/kernel/vm.c:80-98 | Finds the entry of that virtual page; without alloc nothing changes and it is found iff the path exists; with alloc the flat map is unchanged, at most two pages are used, and it fails only when memory is out. |
| Vm.Memory.MapPages | projects/project_1c/kernel/vm.c:137-160 | The flat map is the old one with the pages of the range mapped to consecutive frames; if memory runs out, with a proper prefix of them. |
| Vm.Memory.UvmUnmap | projects/project_1c/kernel/vm.c:165-187 | Exactly the pages of the range are unmapped and exactly their frames freed; no other page is written but page tables. |
| Vm.Memory.UvmDealloc | projects/project_1c/kernel/vm.c:250-262 | Shrinks to newsz: exactly the pages above its rounded-up end are unmapped and freed; returns the new size. |
| Vm.Memory.UvmCreate | projects/project_1c/kernel/vm.c:189-200 | An empty page table: every lookup is 0. |
| Vm.Memory.UvmAlloc | projects/project_1c/kernel/vm.c:220-244 | On success every new page is mapped to a zeroed frame of its own; on failure the flat map is what it was and every data page is free again; it cannot fail while three pages are free per new page. |
| Vm.Memory.UvmCopy | projects/project_1c/kernel/vm.c:300-328 | On success the child has its own copy of every page with the same flags; on failure its flat map is what it was and no data page is lost; the parent is untouched either way. |
| Vm.Memory.FreeWalk | projects/project_1c/kernel/vm.c:266-282 | Terminates by level; every page of the subtree becomes free exactly once and nothing else is written. |
| Vm.Memory.UvmFree | projects/project_1c/kernel/vm.c:286-292 | Every data page and every page-table page of the process is free again, once. |
| Vm.EmptyMapHasNoLeaf | projects/project_1c/kernel/vm.c:277-279 | If the flat map is empty freewalk meets no leaf, so it does not panic. |
| UserCopy.WalkAddr | projects/project_1c/kernel/vm.c:103-121 | The physical address of a page with PTE_V and PTE_U below MAXVA, else 0; nothing changes. |
| UserCopy.CopyOut | projects/project_1c/kernel/vm.c:346-366 | The process sees the bytes at dstva up to the first address it may not access, all of them iff 0 is returned; nothing else it sees changes, and nothing outside the frames of its user pages is written. |
| UserCopy.CopyIn | projects/project_1c/kernel/vm.c:371-391 | Returns what the process sees at srcva, stopping early exactly at the first address it may not access. |
| UserCopy.CopyInStr | projects/project_1c/kernel/vm.c:397-434 | Succeeds with the string up to and including its first NUL; otherwise there is no NUL before max or before the first inaccessible address. |
| UserCopy.ReadsBack | projects/project_1c/kernel/vm.c:346-391 | Bytes copied out are the bytes copied in afterwards. |
| UserCopy.NewMemoryIsZero | projects/project_1c/kernel/vm.c:236-237 | The memory uvmalloc adds reads as zeros, and the process may read, write and execute it. |
| UserCopy.ChildSeesParent | projects/project_1c/kernel/vm.c:308-322 | After uvmcopy the child sees, byte for byte, what its parent saw. |
| ProcMemory.OneChanges | projects/project_1c/kernel/vm.c:137-328 | Whatever exchanges pages between the free list and one process alone keeps the accounts of the whole machine (each page is free, part of one page table, the frame of one page of one process, or the kernel's), and no other process sees a difference. |
| ProcMemory.FillAccounts | projects/project_1c/kernel/vm.c:220-328 | So are uvmalloc and uvmcopy: every new virtual page has a frame of its own. |
| ProcMemory.UnmapAccounts | projects/project_1c/kernel/vm.c:165-262 | So are uvmunmap of any range, with freeing, and uvmdealloc. |
| ProcMemory.FreeAccounts | projects/project_1c/kernel/vm.c:266-292 | So is uvmfree: everything the process had becomes free. |
| ProcMemory.HasSpace | projects/project_1c/kernel/vm.c:346-434 | The accounts give each process what copyout and copyin rely on: frames of its own, neither free nor part of a page table. |
| ProcMemory.Growproc | projects/project_1c/kernel/proc.c:371-387 | The accounts are kept; new pages read as zeros, pages given up are gone, the rest reads as before, and no other process sees a difference. -1 only for want of memory. When it answers 0 the process has the new size if and only if that fits an unsigned int; if it does not, the answer is 0 and no page and no free list has changed. |
| ProcMemory.ForkCopy | projects/project_1c/kernel/proc.c:404-404 | The accounts are kept; the child sees byte for byte what its parent sees, or has nothing; neither the parent nor any other process sees a difference. |
| ProcMemory.ProcPagetable | projects/project_1c/kernel/proc.c:288-317 | The accounts are kept; trampoline and trapframe are mapped, and nothing else, neither for the user, the one to be executed and the other to be written; when memory runs out, at any point, exactly the pages that were free are free. |
| ProcMemory.ProcFreepagetable | projects/project_1c/kernel/proc.c:321-327 | The accounts are kept; exactly the pages of the process and of its page table become free, and the kernel's pages it had mapped do not. |
| FsFiles.StoreWrote | projects/project_1c/kernel/fs.c:518-525 | Storing bytes into a data block changes exactly those bytes of that one file. |
| FsFiles.FileWritten | projects/project_1c/kernel/fs.c:504-537 | With the new size, the file is the old one with the data spliced in at the offset; all others are unchanged. |
| FsFiles.DecodeEncode | projects/project_1c/kernel/fs.c:223-239 | ilock reads from the inode block what iupdate wrote, and the other inodes of the block stay. |
| FileSystem.FileSystem.Balloc | projects/project_1c/kernel/fs.c:65-88 | The lowest free block, zeroed, or 0 exactly when every block is marked. |
| FileSystem.FileSystem.Bfree | projects/project_1c/kernel/fs.c:91-105 | Never meets a free block (its panic is unreachable); the bit alone is cleared. |
| FileSystem.FileSystem.Bmap | projects/project_1c/kernel/fs.c:380-419 | The block that holds file block bn, allocated if need be; 0 only on a full disk; a block already there leaves everything as it was; no file byte changes; at most two free-map blocks, the block and the indirect block become dirty. |
| FileSystem.FileSystem.Readi | projects/project_1c/kernel/fs.c:469-494 | The bytes [off, off + n) of the file, cut at its end, if the destination takes them all; otherwise -1 after as many as it takes; nothing changes, as no file has a hole. |
| FileSystem.FileSystem.Iupdate | projects/project_1c/kernel/fs.c:223-239 | The inode on disk is the one in memory; one dirty block. |
| FileSystem.FileSystem.Ilock | projects/project_1c/kernel/fs.c:302-309 | The inode in memory is the one on disk. |
| FileSystem.FileSystem.WriteOne | projects/project_1c/kernel/fs.c:514-526 | One iteration of writei extends what has been written up to the next block boundary or the end; it stops only on a full disk behind the old end, or when its source fails, and then less than the rest of a block is in the buffer and the block has not been logged. |
| FileSystem.Stopped | projects/project_1c/kernel/fs.c:514-536 | Where the loop stops: bytes are left uncounted if and only if the source fails inside a block, and what counts then is a function of the offset and of how much could be read. |
| FileSystem.FileSystem.Writei | projects/project_1c/kernel/fs.c:503-537 | -1 exactly for an offset past the end or beyond the largest file, and then nothing changes; otherwise a prefix of the data is written and counted, fewer than n bytes only on a full disk or with a failing source; no hole appears, no other file changes, nor do type and links, block accounting is kept, the blocks dirtied are within the bound. With a failing source: bytes are left in the buffer uncounted if and only if it fails inside a block; the file is then the old one with the counted bytes spliced in if and only if the others would change nothing within its old size; and a change escapes the log if and only if the block existed, was not in the log, and the bytes differ. |
| FileSystem.FileFate | projects/project_1c/kernel/fs.c:514-536 | The file is what the result says if and only if the source did not fail or its uncounted bytes agree with the old file as far as that reaches; stated of the input alone, whatever the disk did. |
| FileSystem.FileSystem.Itrunc | projects/project_1c/kernel/fs.c:423-451 | The file is empty, exactly its blocks are free again, no other file changes, nor do its type and links; the blocks dirtied are exactly the inode block and the free-map blocks with a bit of the file. |
| FileSystem.TruncFits | projects/project_1c/kernel/fs.c:423-451 | These are at most MAXOPBLOCKS if and only if the bits of the file lie in fewer than MAXOPBLOCKS free-map blocks, as on every disk of at most 9 * 8192 blocks. |
| FileSystem.TallyEnd | projects/project_1c/kernel/fs.c:514-536 | The counts of a whole writei are within the bound in the offset and the length alone. |
| FileWrite.ChunkFits | projects/project_1c/kernel/file.c:155-155 | For every offset the bound proved for writei is at most MAXOPBLOCKS for a piece of at most the chunk size, exactly MAXOPBLOCKS for a full unaligned piece, and above it for a chunk one block larger. |
| FileWrite.SpliceReads | projects/project_1c/kernel/fs.c:503-537 | What is written reads back at the same offset and the rest of the file is as it was. |
| FileWrite.Transaction | projects/project_1c/kernel/file.c:162-167 | One transaction: writei's effect, the conditions for a failing source included, the offset advanced by what was written, at most MAXOPBLOCKS blocks used. |
| FileWrite.Filewrite | projects/project_1c/kernel/file.c:139-175 | -1 for a file not open for writing. Otherwise returns n exactly when all was written; if not, the file holds a prefix of the data at the old offset and the disk is full, the source failed, or the write did not fit; f->off tells how far; no transaction exceeds MAXOPBLOCKS. If the source fails: bytes are left uncounted if and only if it fails inside a block and not between two transactions, and the file is the prefix f->off tells if and only if they agree with the old file. |
| CrashSafe.WordsFaithful | projects/project_1c/kernel/log.c:85-114 | The log's view of a block, as words, loses no byte of it. |
| CrashSafe.CommittedOnce | projects/project_1c/kernel/log.c:193-203 | While nothing is written, what is pending becomes durable whole or not at all. |
| CrashSafe.BeforeOrAfter | projects/project_1c/kernel/log.c:126-235 | From the time the last operation in progress ends, a stop after any step leaves what recovery turns into the file system last committed or the present one. |
| CrashSafe.Begin | projects/project_1c/kernel/log.c:126-142 | begin_op while other operations share the log, which must be larger than LOGSIZE unless it is clean: admitted exactly if the reservations fit, and then the operation can log MAXOPBLOCKS blocks; a stop recovers the file system last committed. |
| CrashSafe.LogAll | projects/project_1c/kernel/log.c:214-235 | The log_write calls of one step of an operation, in any order, while others are in progress: none panics, operations then read the new file system, nothing durable changes. |
| CrashSafe.WriteIn | projects/project_1c/kernel/file.c:162-167 | filewrite's writei and log_write calls within an operation that shares the log with others: what it promises of the file; a stop still recovers the file system last committed. |
| CrashSafe.TruncateIn | projects/project_1c/kernel/fs.c:423-451 | The same for itrunc, if the free-map blocks with a bit of the file are fewer than the blocks the operation may still log. |
| CrashSafe.End | projects/project_1c/kernel/log.c:146-175 | end_op: while other operations are in progress nothing is committed; the last one commits all that the group has done, and a stop meanwhile recovers the file system before the group or after it. |
| CrashSafe.Write | projects/project_1c/kernel/file.c:162-167 | begin_op, writei and end_op over the real log: what filewrite promises of the file, and wherever the machine stops in between, recovery finds a consistent file system, namely the one before or the one after. |
| CrashSafe.WriteFile | projects/project_1c/kernel/file.c:139-175 | The whole of filewrite, transaction by transaction through the log: wherever the machine stops, recovery finds a consistent file system in which a prefix of the data has been written and nothing else has changed. |
| CrashSafe.Boot | projects/project_1c/kernel/log.c:116-123 | Recovery of the disk any stop has left brings that file system about, and so does recovery of whatever a stop during recovery leaves; the next write can follow. |
| MkFs.MkFs.constructor | projects/project_1c/mkfs/mkfs.c:108-111 | An empty image whose free blocks start after the metadata. |
| MkFs.MkFs.Iappend | projects/project_1c/mkfs/mkfs.c:252-294 | The file has grown by exactly the data, no other file changes and references stay unique; mkfs dies for a file that gets too large, and otherwise only if the image is full. |
| MkFs.MkFs.Ialloc | projects/project_1c/mkfs/mkfs.c:220-232 | The next inode becomes an empty file with one link. |
| MkFs.MkFs.Balloc | projects/project_1c/mkfs/mkfs.c:234-248 | The free map marks exactly the blocks handed out. |
| MkFs.MkFs.Finish | projects/project_1c/mkfs/mkfs.c:163-170 | Block accounting holds as the kernel needs it, the root directory is padded with zeros and no other file changes; no file has a hole, so that fs.c may work on the image, if and only if the root directory did not end on a block boundary. |
| MkFs.CopyFile | projects/project_1c/mkfs/mkfs.c:157-158 | The contents of a file, appended a block at a time, are the file; mkfs dies only for a file too large or for want of room. |
| MkFs.Make | projects/project_1c/mkfs/mkfs.c:110-170 | For any list of files: the root is a directory and each file a file, with one link; every file has its contents, the root directory lists them, block accounting holds, and the image has no hole if and only if the number of root entries is not a multiple of 64. mkfs does not die as long as there is room. |
| Directory.Namecmp | projects/project_1c/kernel/fs.c:542-545 | The name equals the field, up to its first NUL or 14 characters. |
| Directory.Dirlookup | projects/project_1c/kernel/fs.c:550-573 | The inode number and offset of the first entry in use with that name, or 0 if there is none; it panics only for an inode that is no directory or a directory that ends within an entry. |
| Directory.DirentReads | projects/project_1c/mkfs/mkfs.c:152-155 | An entry as mkfs fills it in is read as its inode number and name, the name cut to 14 characters. |
| Directory.NamedOnce | projects/project_1c/mkfs/mkfs.c:120-155 | In the root directory mkfs makes, the first entry with the name of a file is its own and has its inode number. |
| Directory.DotsNamed | projects/project_1c/mkfs/mkfs.c:120-128 | The entries "." and ".." come first and name the root. |
| Directory.FindOnImage | projects/project_1c/kernel/fs.c:550-573 | On an image of mkfs without a hole, dirlookup in the root finds each file under its name, and there its contents. |
| Cases.ImageWithHole | projects/project_1c/mkfs/mkfs.c:163-168 | There is such an image: 62 empty files make one whose root directory has a hole. |
| Cases.FailingSource | projects/project_1c/kernel/fs.c:520-523 | On an image with one file of two bytes, writei of two bytes of which only the first can be read returns 0, has changed the first byte of the file, and has not logged it. |
| SleepWait.InvStep | projects/project_1c/kernel/proc.c:429-771 | Every step of every process, at the grain of single lock operations and state changes, keeps the invariant. |
| SleepWait.Reachable | projects/project_1c/kernel/proc.c:429-771 | The invariant holds in every reachable state, for any number of processes and any interleaving. |
| SleepWait.NoLostWakeup | projects/project_1c/kernel/proc.c:444-549 | No reachable state has wait_lock free and a ZOMBIE whose current parent sleeps in wait; while wait_lock is held such a state exists only inside reparent, with init about to be woken. |
| SleepWait.WaitFailsOnlyWithoutChildren | projects/project_1c/kernel/proc.c:541-544 | wait returns -1 at the end of a scan only if its caller has no children or has been killed. |
| SleepWait.WaitSleepsOnlyWithoutZombies | projects/project_1c/kernel/proc.c:546-547 | When wait goes to sleep it has no zombie child. |
| Family.ParentStep | projects/project_1c/kernel/proc.c:429-534 | A parent changes in three places only: reparent gives each child of the exiting process to init, fork makes the forking process the parent, and wait clears the entry it frees. |
| Family.NoOrphans | projects/project_1c/kernel/proc.c:429-534 | In every reachable state each process but init has, from the moment fork makes it a child until it is freed, a parent that is there, is no zombie, and has not gone past it in reparent; while fork is at it, that is the forking process. |
| Family.NoChildrenAfterReparent | projects/project_1c/kernel/proc.c:445-455 | When reparent is over nobody is the child of the exiting process, nor ever after. |
| Family.WaitGivesUpExactly | projects/project_1c/kernel/proc.c:511-547 | At the end of its scan wait returns -1 if and only if its caller has no child or has been killed, and otherwise sleeps. |
| SleepWait.KillWakes | projects/project_1c/kernel/proc.c:776-796 | kill marks the process and wakes it if it sleeps, and changes nothing else. |
| Bio.RecycleKeeps | projects/project_1c/kernel/bio.c:78-82 | Recycling an unused buffer keeps at most one buffer per block and loses no data. |
| Bio.LeastRecentlyReleased | projects/project_1c/kernel/bio.c:77-78 | The unused buffer nearest the end of the ring was released no later than any other unused one. |
| BufferUse.BuffersLast | projects/project_1c/kernel/bio.c:77-86 | bget runs out of buffers only if lh.n and the buffers processes have in hand come to at least NBUF; so never while they have fewer in hand than the operations in progress may still log. |
| BufferUse.FullLogTakesAll | projects/project_1c/kernel/param.h:10-11 | A log holding LOGSIZE blocks has every buffer of the cache pinned: bget of any other block panics. |
| Bio.BufferCache.constructor | projects/project_1c/kernel/bio.c:36-53 | All buffers are in the ring, unused, standing for block 0 of device 0. |
| Bio.BufferCache.Bget | projects/project_1c/kernel/bio.c:63-86 | For dev != 0: the one buffer of the block with one more reference, or the least recently released unused one; its panic happens exactly when the block is not cached and every buffer is in use; no latest contents change. |
| Bio.BufferCache.AcquireSleep | projects/project_1c/kernel/bio.c:70-70 | A waiter becomes the holder. |
| Bio.BufferCache.Fill | projects/project_1c/kernel/bio.c:98-102 | bread returns the latest contents of the block. |
| Bio.BufferCache.Change | projects/project_1c/kernel/bio.c:92-103 | Writing through a held buffer changes the latest contents of that block alone. |
| Bio.BufferCache.Bwrite | projects/project_1c/kernel/bio.c:106-112 | The disk then holds the buffer's data; latest contents are unchanged. |
| Bio.BufferCache.Bpin | projects/project_1c/kernel/bio.c:139-144 | One more reference, for the log. |
| Bio.BufferCache.Bunpin | projects/project_1c/kernel/bio.c:146-151 | One fewer, of a pin that was taken. |
| Bio.BufferCache.ReleaseSleep | projects/project_1c/kernel/bio.c:122-122 | The lock of a buffer is free again while its reference still counts; no latest contents change. |
| Bio.BufferCache.Leave | projects/project_1c/kernel/bio.c:124-136 | The reference is given up; the last one makes the buffer the most recently released and first in the ring; no latest contents change. |
| Bio.BufferCache.Brelse | projects/project_1c/kernel/bio.c:116-137 | The two halves without anything in between: one holder fewer; with no references left the buffer becomes the most recently released and first in the ring; no latest contents change. |
| Virtio.AtMostTwo | projects/project_1c/kernel/virtio_disk.c:201-213 | At most two requests are in flight. |
| Virtio.RingsFit | projects/project_1c/kernel/virtio_disk.c:272-277 | Neither ring is overrun, and comparing 16-bit indices tells exactly whether a completion is unseen, wrap-around included. |
| Virtio.ChainsApart | projects/project_1c/kernel/virtio_disk.c:185-213 | Different requests share no descriptor and no buffer. |
| Virtio.FreeCount | projects/project_1c/kernel/virtio_disk.c:201-213 | The number of free descriptors is NUM minus three per request in flight. |
| Virtio.NotBusyMeansDone | projects/project_1c/kernel/virtio_disk.c:283-286 | When b->disk is 0 the device has carried out that buffer's own request. |
| Virtio.VirtioDisk.constructor | projects/project_1c/kernel/virtio_disk.c:126-146 | All descriptors free, both rings empty. |
| Virtio.VirtioDisk.AllocDesc | projects/project_1c/kernel/virtio_disk.c:156-166 | The first free descriptor is taken, or -1 exactly when none is free. |
| Virtio.VirtioDisk.Alloc3Desc | projects/project_1c/kernel/virtio_disk.c:201-213 | Three different free descriptors, or none and what was taken is given back, fewer than three being free. |
| Virtio.VirtioDisk.Submit | projects/project_1c/kernel/virtio_disk.c:233-281 | Starts the request exactly when fewer than two are in flight; the others are unaffected. |
| Virtio.VirtioDisk.FreeChain | projects/project_1c/kernel/virtio_disk.c:185-197 | Follows the links of a request and frees exactly its three descriptors; free_desc does not panic. |
| Virtio.VirtioDisk.Finish | projects/project_1c/kernel/virtio_disk.c:283-289 | virtio_disk_rw ends only after the device has carried out its own request, and frees that chain alone. |
| Virtio.VirtioDisk.Intr | projects/project_1c/kernel/virtio_disk.c:294-327 | Every completion reported so far is noticed and no other request changes. |
| Virtio.VirtioDisk.DeviceFetch | projects/project_1c/kernel/virtio_disk.c:271-281 | The device finds in the rings exactly the request submitted: block, direction, buffer, in a chain of a header to read, the buffer, which it may write exactly for a read of the disk, and a status to write. |
| Virtio.VirtioDisk.DeviceReport | projects/project_1c/kernel/virtio_disk.c:309-314 | A completion is appended to the used ring. |
| Console.CommittedStays | projects/project_1c/kernel/console.c:136-179 | Whatever is typed, erased or killed, what has been committed only grows. |
| Console.LineCommitted | projects/project_1c/kernel/console.c:160-173 | Ordinary characters are added to the line; return, newline and ^D commit it, the first two as a newline. |
| Console.EraseUndoes | projects/project_1c/kernel/console.c:152-158 | Delete and ^H undo the last character of the line and nothing else. |
| Console.LineKilled | projects/project_1c/kernel/console.c:144-150 | ^U throws away the line being typed and nothing else. |
| Console.RingFull | projects/project_1c/kernel/console.c:159-172 | The character that fills the ring commits the line; with a full ring everything but the editing keys is lost. |
| Console.Differences | projects/project_1c/kernel/console.c:159-171 | r <= w <= e <= r + 128 modulo 2^32: the unsigned differences of the indices are the true fill counts. |
| Console.LastTyped | projects/project_1c/kernel/console.c:145-146 | The byte before the edit index is never a line end, so ^U's newline test never fails. |
| Console.Console.constructor | projects/project_1c/kernel/console.c:44-53 | An empty ring. |
| Console.Console.Consoleintr | projects/project_1c/kernel/console.c:135-179 | The ring afterwards holds exactly what the editing rules say of the input stream. |
| Console.Console.Consoleread | projects/project_1c/kernel/console.c:79-127 | The bytes returned are the next committed ones in order, each delivered once; a read ends after n bytes, at a line end, or before ^D, which is kept for the next read unless it comes first; a byte that cannot be copied out ends it and is lost. |
| Grep.Match | projects/project_1c/user/grep.c:70-80 | True iff some suffix of the text (with ^ the text itself) begins with a string in the pattern's language. |
| Grep.Matchhere | projects/project_1c/user/grep.c:82-94 | True iff the text begins with a string in the pattern's language; the mutual recursion terminates. |
| Grep.Matchstar | projects/project_1c/user/grep.c:96-104 | True iff after some number of fitting characters the rest of the pattern matches here. |
| Grep.Grep | projects/project_1c/user/grep.c:10-34 | For any input and any sizes of the pieces read returns, the output is a function of the input alone. |
| Grep.PrintLines | projects/project_1c/user/grep.c:21-28 | All complete lines in the buffer before the first NUL are handled; what is left has no line that could be found. |
| Grep.PrintsWhatFits | projects/project_1c/user/grep.c:10-34 | If every line fits 1023 bytes with its newline and has no NUL, exactly the matching newline-terminated lines are printed. |
| Grep.RightExactlyWhenLinesFit | projects/project_1c/user/grep.c:10-34 | grep prints exactly the matching lines for every pattern if and only if every newline-terminated line fits 1023 bytes and has no NUL. |
| ShellSyntax.LexText | projects/project_1c/user/sh.c:266-309 | A list of tokens spelled out with single spaces gives the tokens back. |
| ShellLex.LexExactly | projects/project_1c/user/sh.c:266-309 | The tokens of a line are those it is spelled with, whatever white space stands between them, as long as two that would run together are apart; and every line is so spelled. |
| ShellSyntax.ParseTokens | projects/project_1c/user/sh.c:345-447 | The fully parenthesised form of a command parses to the command, whatever follows it. |
| ShellSyntax.RoundTrip | projects/project_1c/user/sh.c:266-447 | From text to tree: every well-formed command of at most nine words per simple command comes back from its rendering. |
| ShellGrammar.ReadLines | projects/project_1c/user/sh.c:345-447 | Words and redirections in any order, parentheses, pipes, ampersands and semicolons: what is written in the grammar is read as what it means, before an end or a closing parenthesis. |
| ShellGrammar.ParsesExactly | projects/project_1c/user/sh.c:328-447 | A list of tokens is accepted as a command if and only if the grammar can write it so, with that meaning: | binds tighter than &, & tighter than ;, and | and ; associate to the right. |
| ShellGrammar.RenderParses | projects/project_1c/user/sh.c:328-447 | Every command of at most nine words a part, written with parentheses only where a part needs them, is read back. |
| ShellGrammar.TextParses | projects/project_1c/user/sh.c:266-447 | The text of a line of the grammar, its tokens spelled out with spaces between, is read as what that line means. |
| Shell.Gettoken | projects/project_1c/user/sh.c:266-309 | Reads the next token of the line and stops right after it; word bounds are those of the token. |
| Shell.Peek | projects/project_1c/user/sh.c:311-321 | Tells whether the next token begins with one of the characters, consuming only space. |
| Shell.Parseredirs | projects/project_1c/user/sh.c:375-398 | The redirections collected are those of the grammar, or the missing-file error. |
| Shell.Parseblock | projects/project_1c/user/sh.c:400-414 | Agrees with the grammar's block, errors included. |
| Shell.Parseexec | projects/project_1c/user/sh.c:416-447 | Agrees with the grammar's simple command, errors included. |
| Shell.Parsepipe | projects/project_1c/user/sh.c:362-373 | Agrees with the grammar's pipeline. |
| Shell.Parseline | projects/project_1c/user/sh.c:345-360 | Agrees with the grammar's line; terminates by remaining length and grammar level. |
| Shell.Nulterminate | projects/project_1c/user/sh.c:450-494 | A NUL is written at the end of every word of the tree and nowhere else. |
| Shell.WordStands | projects/project_1c/user/sh.c:450-494 | After that every word is a C string with exactly its token's characters. |
| Shell.Parsecmd | projects/project_1c/user/sh.c:328-343 | For every NUL-free line: accepted iff its tokens are a line of the grammar, the command that line means, and every word afterwards a C string with exactly its token's text; a rejected line is left untouched. |

## Left out

- LogProof.CrashAtomicity: assumes what the design assumes of the disk, that a block write is atomic and that writes reach it in order; the header of the initial disk must be readable (at most LOGSIZE distinct home blocks).
- LogCode.Log.BeginOp: one attempt; the caller that is not admitted sleeps on the log and tries again, which is not modelled.
- LogCode.Log.WriteHead: sets lh.n to 0 after the header block is cached, where the source sets it just before; nothing reads lh.n in between.
- Contents of logged blocks are 256 words; the cache of the log is unbounded there. Its 30 buffers are in `Bio`, and how many the log leaves of them in `BufferUse`.
- Umalloc.Allocator.Malloc: sbrk returns whole units above the old break; when it grants a wrong size the model reports that and stops, where the source goes on to write to memory it has not got.
- Umalloc.Allocator.Morecore: the same.
- Queue.Dequeue: reports a read or write outside the table and stops there.
- `enqueue` (insertion at the front) is never called, and the scheduling log (schedlog) is bookkeeping that influences nothing; neither is modelled.
- Mlfq.SchedulerInvariant: one hart, each queue call atomic; several harts would race on the table, which has no lock.
- Vm.Memory.MapPages: requires that no page of the range is mapped, as its panic does; likewise Vm.Memory.UvmUnmap and Vm.Memory.UvmCopy require mapped pages.
- Vm.Memory.UvmAlloc: page-table pages added by a failing call stay in the tree, as in the source; only the flat map and the data pages are restored.
- UserCopy.CopyOut: user pages must have frames of their own, as the accounts give them (`ProcMemory.HasSpace`).
- ProcMemory.Growproc: for sizes below 2^32, as its own local variable holds them.
- ProcMemory.ForkCopy: the copy of user memory only; the freeproc after a copy that fails, registers, files and the working directory are left out.
- The kernel page table, uvmfirst, uvmclear, exec, and the TLB.
- FileSystem.FileSystem.Writei: the bytes a failing source leaves in a buffer are part of the model's disk from then on; that they are lost once the buffer is recycled is not modelled.
- FileSystem.FileSystem.Ilock: its panics and the valid flag are left out.
- CrashSafe.Write: from a source that can be read; the blocks are given to the log at the end of each step of an operation, in any order and with their final contents, so the steps of different operations do not interleave inside one writei or itrunc.
- FileSystem.FileSystem.Itrunc: does not promise to stay within MAXOPBLOCKS blocks; `FileSystem.TruncFits` says when it does.
- FileWrite.Filewrite: pipes and devices are left out, n >= 0, and no other process is at the file between two of its transactions.
- The file system is on a disk of fewer than 0x7FFF0000 blocks, so that no block number overflows an int.
- Directories but for dirlookup, path names, links, inode allocation in the kernel, the inode and file tables with their reference counts, locks, pipes and devices.
- MkFs.MkFs.Iappend: what is left on the image when mkfs dies (a file too large, or a read past the end of a full image) is not described.
- MkFs.MkFs.constructor: the superblock is not written to block 1.
- MkFs.Make: at most 198 files, as ialloc does not look whether there is an inode left; names come as mkfs has shortened them.
- SleepWait.NoLostWakeup: lock acquisition, context switches and the closing of files are single steps or left out; sleepers on other channels are modelled only by their channel, allocproc only by a vacant slot. A process is dispatched only when it is runnable, whereas this scheduler can also run a sleeping slot when its table is empty (`Queue.IdleTable`).
- ProcTable.Scheduler.FreeProc: the page table is in `ProcMemory.ProcFreepagetable`, which only unmaps the trapframe; the kalloc of its page in allocproc and the kfree of it in freeproc are modelled nowhere.
- ProcTable.Scheduler.SleepOn: the locks are in `SleepWait`.
- Bio.BufferCache.Bget: up to the sleep lock; who waits for a buffer is counted, in no order.
- Bio: the device is written and read at once; block numbers of device 0 are not used by callers.
- Virtio.VirtioDisk.Submit and Virtio.VirtioDisk.Finish are the two halves of virtio_disk_rw around its sleeps; device registers and memory barriers are left out.
- Virtio.VirtioDisk.constructor: the negotiation of features and the registers of the queue are left out.
- Virtio.VirtioDisk.DeviceReport: the device completes each request once, with status 0.
- Console.Console.Consoleread: input arrives while it sleeps, as a parameter; echo, procdump and the UART are left out.
- Grep.Grep: the main program and its file handling are left out.
- Shell.Parsecmd: NUL-free lines; malloc does not fail; the source builds redirections around a command it is still filling in, the model puts them around it at the end; running commands is left out.
- Assembly, traps, the interrupt controller, ELF loading, the other user programs, and `threading/`.
