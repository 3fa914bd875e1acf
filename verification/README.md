# A verified model of the kernel's stateful subsystems

The repository is a small Unix-like kernel for x86_64 with its file system tools, a C
library and a shell. This project models the parts whose correctness is a matter of state
kept over long runs, in Dafny, and proves what they promise:

* **virtual memory** (`kernel/memory.c`): page tables in physical memory, the walk with
  on-the-fly splitting of 2 MB pages, creation of address spaces, eager and copy-on-write
  clone, the two fault handlers, reference counts;
* **the kernel heap** (`kernel/memory.c`): first fit with splitting and full coalescing;
* **pipes, descriptors, the scheduler, wait/reap and signals** (`kernel/pipe.c`,
  `kernel/scheduler.c`, `kernel/syscall.c`) as step machines over whole runs;
* **the program break and malloc** (`kernel/syscall.c`, `some-libc/stdlib.c`);
* **TinyFS and the VFS** (`kernel/fs/`), the image that `mkfs.tinyfs` writes, and the
  `tinyfs-add` tool (`tools/`);
* **the shell's environment file** (`userspace/shell.c`).

Code that works by changing things step by step is written as classes and methods with the
source's own loops; each is proved against functions on values, and the theorems are about
those functions and about runs of them. `dafny verify dfyconfig.toml` checks everything.

## How the parts fit together

* `Prelude` holds the option type and the verdict type.
* `PageTables` defines tables, the walk and the translation; `PagingSteps` the single writes;
  `Paging` the operations on one space; `AddressSpaces`, `CowFork` and `EagerFork` the
  operations on whole spaces; `CowModel` and `FlatView` the flat view of user pages;
  `CowRefinement` the two machines and the theorem that one refines the other; `UserMemory`
  shows that the methods are steps of the copy-on-write machine; `BootRuns` gives runs from
  the boot state; `Isolation` shows that spaces do not disturb each other.
* `KernelHeap`; `PipeBuffer` is the ring of a pipe as a value, `PipeFifo` one reader and one
  writer statement by statement, `PipeShared` any number of tasks transfer by transfer,
  `PipeSleep` the loops with sleeping and waking; `Descriptors`, `Scheduler`, `Signals`, and
  `KilledTasks` for the last two together; `UserHeap` (modules `ProgramBreak` and `Malloc`).
* `FsTree` is the directory tree alone; `TinyFs` the bitmaps, inodes and blocks; `Vfs` the
  operations on a directory and a name; `Paths` path names; `FileOps` the operations on paths
  and their runs; `Outcomes` when these operations succeed; `FsKernel` the code with its loops;
  `FsImage` the fresh image; `TinyfsAdd` the tool; `ShellEnv` the environment.

## What turned out false, and exactly when it holds

* Copy-on-write hides a child's write from the parent exactly for pages in pool frames:
  other frames carry no count (`CowRefinement.PrivateIffPooled`).
* A page that was read-only before a fork becomes writable after it. The child's page takes
  writes under copy-on-write and with eager copies alike exactly when the page was writable
  (`CowRefinement.WritableIff`); a write that tells the machines apart is
  `CowRefinement.ReadOnlyIsLost`. Runs from the boot state that show both are in `BootRuns`;
  the kernel itself registers writable regions only (kernel/elf.c:70, kernel/elf.c:77).
* A read at end of file can leave bytes behind: the reader tests the ring, is preempted, and
  then tests the write end. It leaves none exactly when the ring is still empty at the second
  test (`PipeFifo.EofIff`, with the schedule `PipeFifo.EarlyEof`).
* Ends of a pipe may be shared. With one transfer at a time the bytes stay in order for any
  number of tasks (`PipeShared.SharedFifo`); with a switch between any two statements two
  writers can lose a byte (`PipeShared.TwoWritersSpoil`).
* SIGKILL need not end a task soon: it does when the switch to it is a timer interrupt of user
  mode, and only then (`KilledTasks.KilledEnds`); otherwise a task asleep on a pipe may go
  back to sleep (`KilledTasks.SleepsAgain`).
* After a timer interrupt that switches tasks, a signal of the new task is delivered on the
  register frame of the old one. A handler's sigreturn therefore restores the task's own
  registers exactly when the task was the one interrupted, or the two frames agree
  (`Signals.OwnContextIff`, `Signals.PreemptedFrame`). For the same reason Ctrl-C can end the
  idle task (`Signals.IdleEnds`), which the scheduler's run theorems take to be alive; a
  single tick leaves exactly one task running if and only if nobody else was running and the
  current task was, or another is READY (`Scheduler.TickRuns`).
* A fork that fails after copying descriptors keeps its references for ever: the count of a
  pipe end is the number of its holders exactly when no such fork copied it
  (`Descriptors.CountsCover`, `Descriptors.LostIff`). After pipe, a failing fork and exit the
  pipe is held by nobody and never free again (`Descriptors.LeakingRunLeaks`).
* Success of `sbrk` means that the pages are mapped, except when the last free page went to the
  program and the slot had no page table yet (`ProgramBreak.Kernel.SysSbrk`).
* Names of more than 27 characters are cut when stored but not when looked up: create and
  mkdir keep names unique exactly when the stored name is new (`Vfs.CreateKeepsIff`,
  `FsImage.LongNameBreaks`).
* delete keeps the file system well formed exactly when the entry it removes leads to the file,
  rmdir exactly when a proper name leads to the directory and it is not the current one
  (`Vfs.DeleteKeepsIff`, `Vfs.RmdirKeepsIff`). Removing "bin/." from a fresh disk succeeds and
  breaks it (`FsImage.RmdirDotBreaks`).
* rename keeps it well formed exactly when a proper old name leads to what is moved, a
  directory stays in its parent, since ".." is not rewritten, and the new name as stored is not
  another entry's, or when the new entry is the one that goes again (`Vfs.RenameKeepsIff`).
  Renaming "hello.txt/." on a fresh disk fails and leaves the file with two names
  (`FsImage.RenameDotBreaks`).
* What `tinyfs-add` accepts, cat reads exactly when no component of the destination has more
  than 27 characters: the tool cuts components to 27, the kernel to 28
  (`TinyfsAdd.AddThenCat`, `FsImage.CutPathLost`).

## Model

| member | source | states |
|---|---|---|
| `PageTables.PathOfInjective` | kernel/memory.c:132-135 | two page numbers below 2^36 with the same four indices are equal |
| `PageTables.SameTranslate` | kernel/memory.c:127-185 | writes outside a root's own table frames never change what an address of that root translates to |
| `PageTables.StoreTranslate` | kernel/memory.c:139-183 | a write to one entry of a table only affects walks through that entry |
| `PagingSteps.AllocStep` | kernel/memory.c:83-89 | handing out a zeroed page changes no translation and no user leaf |
| `PagingSteps.LinkStep` | kernel/memory.c:139-165 | linking an empty table under an absent entry changes no translation |
| `PagingSteps.SplitStep` | kernel/memory.c:167-180 | replacing a 2 MB entry by a table of 512 entries changes no translation |
| `PagingSteps.LeafStep` | kernel/memory.c:187-202 | replacing a leaf word changes exactly that page of that space |
| `Paging.Memory.constructor` | kernel/memory.c:78-107 | the allocator starts at 0x600000 with all counts zero over the boot tables |
| `Paging.Memory.AllocPage` | kernel/memory.c:83-89 | returns the next page zeroed, or NULL at 0x800000 with nothing changed |
| `Paging.Memory.FillTable` | kernel/memory.c:174-176 | the loop writes the 512 shards of a huge page |
| `Paging.Memory.EnterDirectory` | kernel/memory.c:155-184 | finds, makes or splits into the page table without changing a translation |
| `Paging.Memory.Walk` | kernel/memory.c:131-185 | finds the page-table word of the address; fails without allocation exactly when there is no table, with allocation only when pages run out; never changes a translation |
| `Paging.Memory.Map` | kernel/memory.c:187-194 | the page leads to the given frame and every other page of every space translates as before; a failing call changes no translation |
| `Paging.Memory.Unmap` | kernel/memory.c:196-202 | the page faults and every other page is as before, where a page table exists; otherwise nothing changes |
| `Paging.Memory.ServeCow` | kernel/memory.c:497-510 | a private copy while the count exceeds one, otherwise the same frame made writable; the count falls by one |
| `Paging.Memory.HandleCowFault` | kernel/memory.c:485-514 | succeeds exactly on a present copy-on-write entry for which a page can be had; only that page changes |
| `Paging.FindRegion` | kernel/memory.c:538-548 | none exactly when no region has start <= address < end; otherwise the flags of the first that does |
| `Paging.Memory.HandleDemandFault` | kernel/memory.c:559-581 | an absent page whose address lies in some region gets a fresh zero page with the flags of the first such region; a present one stays; with no region from start up to, but not including, end around the address it fails and nothing moves; it fails otherwise only when no page is left |
| `AddressSpaces.Create` | kernel/memory.c:275-318 | a new space translates exactly as the boot tables do and owns its table frames alone; no other space changes; it fails exactly when fewer pages are left than the boot space has tables |
| `AddressSpaces.MirrorsSpace` | kernel/memory.c:275-318 | the copied tables give the boot translation for every address |
| `CowFork.SharePages` | kernel/memory.c:465-477 | the loop over one table shares every present page copy-on-write on both sides; each pool frame's count rises by exactly two for every page of it that was shared |
| `CowFork.ShareHuge` | kernel/memory.c:449-457 | the same for the 512 pages of a split huge page, whose frames lie outside the pool, so that no count moves |
| `CowFork.CloneUser` | kernel/memory.c:406-483 | the user pages of the slots reached are shared copy-on-write and counted exactly, on success those of all slots; it fails only when no page is left, and never with two pages for every slot; a slot in which pages ran out is empty in the destination; the source keeps every page, and no other space is touched |
| `EagerFork.CopyTable` | kernel/memory.c:371-380 | every present page of a table gets a private copy |
| `EagerFork.EagerClone` | kernel/memory.c:320-386 | on success every present user page of the source has a private copy in the destination; it fails only when no page is left and takes at most 513 for every slot; no other space is touched |
| `EagerFork.ForkEagerly` | kernel/memory.c:275-386 | create and eager clone together are one fork step of the eager machine; 0 only when no page is left |
| `Isolation.CloneIsStep` | kernel/memory.c:406-483 | a clone, copy-on-write or eager, writes only the tables of its spaces |
| `Isolation.ExtendsIsStep` | kernel/memory.c:187-202 | so does a map, an unmap or a served fault, of one space |
| `Isolation.CreateIsStep` | kernel/memory.c:275-318 | the creation of a space writes the tables of no other |
| `Isolation.WriteIsStep` | kernel/syscall.c:214-221 | a program's write to any frame that is not a table writes no tables |
| `Isolation.OthersNeverMove` | kernel/memory.c:275-581 | over any run of these, with programs writing their memory in between, the addresses of a space that is not operated on keep their translation |
| `CowModel.SharedFrames` | kernel/memory.c:97-123 | a pool frame mapped twice is read-only and copy-on-write everywhere and its count covers its sharers |
| `CowModel.SoleOwner` | kernel/memory.c:501-510 | a frame with count at most one has a single page |
| `CowModel.ShareKeeps` | kernel/memory.c:398-404 | sharing a page, counted twice, keeps the discipline |
| `CowModel.LeaveKeeps` | kernel/memory.c:501-506 | leaving a shared frame for a fresh one keeps it |
| `CowModel.ReuseKeeps` | kernel/memory.c:507-510 | making the sole page writable in place keeps it |
| `CowModel.JoinedKeeps` | kernel/memory.c:398-483 | the words and the exact counts of a clone, complete or not, imply the discipline |
| `CowRefinement.StepSim` | kernel/memory.c:320-514 | any eager step for the same operation leads to matching states |
| `CowRefinement.EagerFollows` | kernel/memory.c:275-581 | whatever the copy-on-write machine does, the eager machine has a step for it after which the states match again |
| `CowRefinement.CowRefinesEager` | kernel/memory.c:275-581 | every run of the copy-on-write machine (new spaces, forks complete and partial, faults, writes, mappings, unmappings, demand faults) has an eager run of the same operations that agrees on every read of a page in a pool frame and on every write let through |
| `CowRefinement.CowIsEager` | kernel/memory.c:275-581 | and so does every other eager run of these operations |
| `CowRefinement.CowRunKeeps` | kernel/memory.c:275-581 | the sharing discipline, and that boot frames stay out of the pool, hold in every state of every run, with new spaces and partial forks |
| `CowRefinement.ForkKeeps` | kernel/memory.c:398-483 | a fork step, complete or not, keeps the discipline; it is proved from the words and counts it writes |
| `CowRefinement.ForkHarmsNobody` | kernel/memory.c:406-483 | a fork, complete or not, leaves every page that existed with its presence, frame, contents and permission to be written, if need be after a fault |
| `CowRefinement.SharedAlways` | kernel/memory.c:97-514 | in every reachable state shared pool frames are read-only and copy-on-write, counts are at least the number of sharers, and in-place reuse happens for a sole owner only |
| `CowRefinement.PrivateIffPooled` | kernel/memory.c:99-123 | a child's first write is hidden from the parent exactly when the page lies in a pool frame |
| `CowRefinement.ReadOnlyIsLost` | kernel/memory.c:497-499 | after both forks of a state with a read-only page, the same write by the child goes through under copy-on-write and is refused with eager copies |
| `BootRuns.BootPageShared` | kernel/memory.c:97-123 | a run from the boot state (a space, a fork, a write by the child to a page that boot mapped) after which the parent reads what the child wrote |
| `BootRuns.ReadOnlyLostFromBoot` | kernel/memory.c:485-514 | a run from the boot state with a read-only region whose last write goes through under copy-on-write and is refused with eager copies |
| `CowRefinement.WritableIff` | kernel/memory.c:398-514 | the child's page takes writes in both machines or in neither exactly when the page was writable before the fork |
| `UserMemory.Fork` | kernel/scheduler.c:185-196 | the memory part of fork is a step of the copy-on-write machine, also when pages run out midway; it fails only when no page is left, and never with enough for the tables of a space and two for every slot; other spaces keep their tables |
| `UserMemory.MakeSpace` | kernel/memory.c:275-318 | creating a space is the machine's step for it, or no page changes, exactly when fewer pages are left than the boot space has tables |
| `UserMemory.ServeFault` | kernel/memory.c:485-514 | the handler serves a fault as the machine does, exactly on a present copy-on-write entry for which a page can be had, or changes nothing |
| `UserMemory.MapNewPage` | kernel/syscall.c:209-222 | a fresh page mapped for a user page is the machine's map step; it fails only when no page is left and takes at most four |
| `UserMemory.UnmapPage` | kernel/memory.c:196-202 | unmapping a user page is the machine's unmap step where a page table exists, and changes nothing elsewhere |
| `UserMemory.DemandPage` | kernel/memory.c:559-581 | a demand fault is the machine's demand step with the flags of the first region that holds the address, its bounds written out; it fails when none does, and otherwise only when no page is left |
| `UserMemory.UserStore` | kernel/syscall.c:214-221 | a program's store through a page it may write is the machine's write step and keeps the state well formed |
| `UserMemory.BootWf` | boot/stage2.asm:89-105 | the boot tables are well formed and hold only huge entries |
| `UserMemory.BootStart` | boot/stage2.asm:89-105 | the boot state is one from which both machines may start |
| `UserMemory.FromBoot` | boot/stage2.asm:89-105 | every run from the boot state keeps the discipline and has an agreeing eager run |
| `UserMemory.StartUp` | kernel/kernel.c:23-28 | booting, creating the first space and mapping a page in it cannot fail: the page is there, and all these calls can be made |
| `KernelHeap.Canonical` | kernel/memory.c:24-61 | two coalesced heaps over the same memory with the same live blocks are equal |
| `KernelHeap.RunShape` | kernel/memory.c:15-61 | every run keeps the blocks tiling the heap with no two adjacent free blocks |
| `KernelHeap.LiveStays` | kernel/memory.c:24-61 | a live block is never moved or resized before it is freed |
| `KernelHeap.AllFreed` | kernel/memory.c:15-61 | once nothing is live the heap is the single initial block |
| `KernelHeap.HistoryForgotten` | kernel/memory.c:24-61 | runs that leave the same blocks live answer every later request alike |
| `KernelHeap.FreeUndoesAlloc` | kernel/memory.c:24-61 | freeing what was just allocated restores the heap exactly |
| `KernelHeap.AllocServes` | kernel/memory.c:24-42 | the same of the heap as a value: which block is handed out, where, its exact size, and the live blocks before and after |
| `KernelHeap.FirstTwo` | kernel/memory.c:24-42 | on an empty heap with room for both, two requests are served one behind the other |
| `KernelHeap.Heap.constructor` | kernel/memory.c:15-22 | one free block over the whole heap |
| `KernelHeap.Heap.Alloc` | kernel/memory.c:24-42 | hands out the first free block that is large enough, cut to the exact size when header and 8 bytes more are left and whole otherwise, and nothing else becomes or stops being live; NULL, with nothing changed, exactly when no free block is large enough |
| `KernelHeap.Heap.Free` | kernel/memory.c:56-61 | exactly that block stops being live, and free neighbours are coalesced; NULL is ignored |
| `KernelHeap.Heap.Merge` | kernel/memory.c:44-54 | the loop coalesces all neighbouring free blocks |
| `PipeFifo.RunKeeps` | kernel/pipe.c:30-88 | head, tail and count agree at every statement, with the bytes placed or taken but not yet counted |
| `PipeFifo.Fifo` | kernel/pipe.c:30-88 | for one reader and one writer, switched between any two statements: the bytes read are a prefix of those accepted; between calls, bytes read followed by the ring are exactly the bytes accepted |
| `PipeFifo.CallsAccount` | kernel/pipe.c:30-88 | a write that returned n accepted the first n bytes, all of them unless the read end was closed; a read that returned n copied the next n, at least one unless the write end was closed |
| `PipeFifo.ReadStops` | kernel/pipe.c:40-51 | a read that found bytes returns as many as were asked for, or fewer once it has emptied the ring |
| `PipeFifo.EofIff` | kernel/pipe.c:33-34 | a read that returns 0 has left nothing behind exactly when the ring is empty at the second test |
| `PipeFifo.EarlyEof` | kernel/pipe.c:33-34 | a schedule in which a byte is accepted before the end is closed and the read returns 0 |
| `PipeSleep.Pipe.constructor` | kernel/pipe.c:11-25 | a new ring is empty |
| `PipeSleep.Pipe.Take` | kernel/pipe.c:40-45 | takes the oldest bytes, as many as asked for and present |
| `PipeSleep.Pipe.Put` | kernel/pipe.c:70-79 | appends as many bytes as fit |
| `PipeSleep.RunKeeps` | kernel/pipe.c:30-110 | a sleeping reader is the recorded waiter of an empty ring, a sleeping writer of a full one |
| `PipeSleep.NeverBothAsleep` | kernel/pipe.c:33-84 | the two never sleep together, and the next transfer by the other side wakes the sleeper |
| `PipeBuffer.TakeOutIs` | kernel/pipe.c:40-45 | the reading loop leaves the ring without its oldest bytes |
| `PipeBuffer.PutInIs` | kernel/pipe.c:70-79 | the writing loop leaves the ring with the data behind its bytes |
| `PipeShared.SharedFifo` | kernel/pipe.c:30-88 | for any number of tasks on either end, one transfer at a time: bytes returned followed by the ring are the bytes accepted; each write has had a prefix of its data accepted in order, all of it unless the read end was closed; each read got what it returned |
| `PipeShared.TwoWritersSpoil` | kernel/pipe.c:74-78 | two writers switched between statements can both return 1 and leave one of their bytes and one that nobody wrote |
| `Descriptors.FreshPipe` | kernel/syscall.c:230-258 | a new pipe is held by exactly its two descriptors |
| `Descriptors.PipeMade` | kernel/syscall.c:230-258 | the two lowest empty slots from 3 on get the read and the write end of the first unused pipe, each counted once; nothing else changes |
| `Descriptors.PipeFailsIff` | kernel/syscall.c:230-258 | it fails, with nothing changed, exactly when no two slots from 3 on are empty or no pipe is unused |
| `Descriptors.Dup2Keeps` | kernel/syscall.c:259-284 | dup2 keeps the counts, also onto a descriptor of the same pipe |
| `Descriptors.CloseFromKeeps` | kernel/pipe.c:129-142 | closing all descriptors keeps the counts |
| `Descriptors.ForkKeeps` | kernel/scheduler.c:150-204 | fork keeps the accounts, with the references of a failed one booked as lost |
| `Descriptors.CountsCover` | kernel/pipe.c:90-154 | after any run each end's count is at least the number of live descriptors naming it, and equal exactly when no reference to that end was lost; an end is open exactly while counted |
| `Descriptors.LostIff` | kernel/scheduler.c:166-196 | a reference is lost exactly when some fork of the run failed after copying it |
| `Descriptors.NeverRecycled` | kernel/pipe.c:11-28 | a live descriptor always names its pipe's present life, whose end is open |
| `Descriptors.LeakIsForever` | kernel/scheduler.c:166-196 | a reference lost by a failed fork keeps its pipe end open in every later state |
| `Descriptors.LeakingRunLeaks` | kernel/scheduler.c:166-196 | after pipe, a failing fork and exit nobody holds the pipe, and no later run makes it reusable |
| `Descriptors.ReusableIffUnheld` | kernel/pipe.c:90-116 | a pipe record is reusable exactly when nobody holds it and no reference to it was lost |
| `Descriptors.Kernel.PipeCreate` | kernel/pipe.c:11-28 | the first unused record starts a new life |
| `Descriptors.Kernel.PipeCloseEnd` | kernel/pipe.c:90-116 | one reference less; the end closes at zero and the record is free when both are closed |
| `Descriptors.Kernel.SysPipe` | kernel/syscall.c:230-258 | the two lowest free descriptors from 3 on name the two ends of a pipe that was unused; -1 exactly when nothing changed |
| `Descriptors.Kernel.SysDup2` | kernel/syscall.c:259-284 | the new descriptor is a copy of the old one; -1 exactly for a bad or empty descriptor |
| `Descriptors.Kernel.SysClose` | kernel/syscall.c:285-299 | empties the slot; -1 exactly outside 3..7 |
| `Descriptors.Kernel.TaskCloseFds` | kernel/pipe.c:129-142 | empties the table and no other, keeping the counts |
| `Descriptors.Kernel.TaskCopyFds` | kernel/pipe.c:144-154 | copies the table and counts every copy |
| `Descriptors.Kernel.SysFork` | kernel/scheduler.c:150-204 | the child gets the parent's descriptors; a full pool fails before copying |
| `Scheduler.PickNear` | kernel/scheduler.c:35-46 | the choice never jumps over a READY task |
| `Scheduler.TickRuns` | kernel/scheduler.c:131-148 | after a tick exactly one task is RUNNING and it is the current one if and only if nobody but the current task was RUNNING, and it was or another is READY; the new one was READY or stayed |
| `Scheduler.RunGood` | kernel/scheduler.c:118-148 | with the idle task linked, in every state of every run exactly one task is RUNNING and it is the current one |
| `Scheduler.StepGood` | kernel/scheduler.c:131-148 | and no step makes a zombie current |
| `Scheduler.Served` | kernel/scheduler.c:35-148 | a READY task becomes current within MAX_TASKS - 1 ticks while others are appended, block, wake and exit |
| `Scheduler.SleepersSleep` | kernel/scheduler.c:261-289 | a blocked task does not run before it is woken or signalled, and a zombie never runs again |
| `Scheduler.KillWakes` | kernel/scheduler.c:274-289 | kill makes the first live task with this pid READY if it was blocked and touches no other; without one, or for a signal out of range, nothing changes |
| `Scheduler.StatusOnce` | kernel/scheduler.c:235-259 | an exit status is handed out at most once, to the task that created the child, and it is the value of the child's only exit |
| `Scheduler.WaitHandsOut` | kernel/scheduler.c:235-246 | waitpid for a child that has ended and was not waited for hands out its exit code and then frees its stack |
| `Scheduler.WaitWaits` | kernel/scheduler.c:247-249 | for a child that has not ended it waits, and hands out nothing yet |
| `Scheduler.WaitRefused` | kernel/scheduler.c:235-259 | without a child of this pid it changes nothing |
| `Scheduler.WaitGoesOn` | kernel/scheduler.c:247-254 | the waiting call goes on until the child has ended, and then hands out the code exactly when it was not handed out before |
| `Scheduler.ExitEnds` | kernel/scheduler.c:207-214 | exit makes the caller a zombie with the code it gave, logged once, and of the others only the states may change |
| `Scheduler.ExitedIsHanded` | kernel/scheduler.c:207-246 | so the code of the exit is what a later waitpid returns |
| `Scheduler.ForkAdds` | kernel/scheduler.c:150-204 | fork adds one READY task, a child of the caller with a pid that no task has had; without room or memory it adds none |
| `Scheduler.BlockSleeps` | kernel/scheduler.c:261-266 | a task that blocks is BLOCKED, and READY once it is woken |
| `Scheduler.StackOnce` | kernel/scheduler.c:216-233 | a kernel stack is freed at most once, for a reaped task only after it is a zombie whose status was collected, and no linked task is left on it |
| `Scheduler.RunReaping` | kernel/scheduler.c:150-259 | what makes this so holds in every state of every run |
| `Scheduler.IdleLinked` | kernel/kernel.c:109-109 | creating the idle task first gives a state from which these theorems start |
| `Scheduler.Pool.constructor` | kernel/scheduler.c:48-79 | one task, linked to itself, running |
| `Scheduler.Pool.SchedulerNext` | kernel/scheduler.c:35-46 | the loop over the ring finds the first READY task after the current one |
| `Scheduler.Pool.SchedulerTick` | kernel/scheduler.c:131-148 | the tick switches to it |
| `Scheduler.Pool.Link` | kernel/scheduler.c:116-124 | a new task goes last in the ring; refused at 16 |
| `Scheduler.Pool.LookForChild` | kernel/scheduler.c:235-258 | the first child with this pid after the head of the list |
| `Scheduler.Pool.SchedulerRemoveZombie` | kernel/scheduler.c:216-233 | frees the stack of the first reapable task with this pid and clears its pid |
| `Scheduler.Pool.SysKill` | kernel/scheduler.c:274-289 | wakes the first live task with this pid if blocked; -1 exactly when there is none or the signal is out of range |
| `Signals.ScanActs` | kernel/scheduler.c:322-362 | the loop acts on the least eligible signal that is not ignored and clears exactly those up to it |
| `Signals.DeliverActs` | kernel/scheduler.c:308-363 | so does a delivery outside a handler; nothing happens exactly when all eligible signals are ignored |
| `Signals.HandlerStarts` | kernel/scheduler.c:318-361 | if the least eligible signal that is not ignored has a handler, it starts there with rsp lower by 8, the trap flag cleared and no other flag touched, the signal in rdi and rax as before; rip, rsp and rflags are saved, and exactly the eligible signals up to it are cleared |
| `Signals.DefaultEnds` | kernel/scheduler.c:291-332 | if that signal has the default action the task ends with its number as exit code, unless it is 14, 17 or 18 |
| `Signals.IgnoredCleared` | kernel/scheduler.c:318-336 | if all eligible signals are ignored, or have the default action and are 14, 17 or 18, they are cleared and nothing else happens |
| `Signals.KillOrLeave` | kernel/scheduler.c:308-318 | a pending SIGKILL ends the task with code 9; otherwise a task in a handler, like the one with pid 0, is left alone |
| `Signals.ContextHeld` | kernel/scheduler.c:308-363 | from the entry of a handler to its sigreturn the saved context stays and no second handler starts |
| `Signals.HandlerReturns` | kernel/syscall.c:317-326 | sigreturn restores rip, rsp and rflags of the frame that was interrupted |
| `Signals.OwnContextIff` | kernel/idt.c:220-227 | they are the task's own registers exactly when it was the one interrupted or the frames agree |
| `Signals.PreemptedFrame` | kernel/idt.c:220-227 | a handler started by a switching tick overwrites the preempted task's frame and not the new task's |
| `Signals.KillIsFatal` | kernel/scheduler.c:308-316 | a pending SIGKILL stays until the next delivery, which makes the task a zombie whatever its handlers, mask or nesting |
| `Signals.KillCondemns` | kernel/scheduler.c:274-289 | kill with SIGKILL leaves it pending on the first live task with this pid |
| `Signals.KillRaises` | kernel/scheduler.c:274-289 | kill makes exactly this signal pending on the first live task with this pid and changes nothing else; without such a task, or for a signal out of range, it changes nothing |
| `Signals.ChildSignalled` | kernel/scheduler.c:150-204 | a child that is then signalled has that one signal pending, whatever its parent had, with its parent's handlers and mask, outside any handler, and 0 as the result of fork |
| `KilledTasks.KilledEnds` | kernel/idt.c:220-227 | a killed READY task becomes current within MAX_TASKS - 1 ticks, and has ended then exactly when the tick that reached it interrupted user mode; otherwise SIGKILL is still pending |
| `KilledTasks.UserTicksEnd` | kernel/idt.c:220-227 | it has ended by then if every tick interrupts user mode |
| `KilledTasks.SleepsAgain` | kernel/pipe.c:33-38 | a run in which a killed task wakes in pipe_read, finds the ring empty and sleeps again with SIGKILL pending |
| `Signals.SelfSignal` | kernel/syscall.c:300-316 | a task that installs a handler and signals itself is in that handler on its way back to user mode, with its registers saved |
| `Signals.IdleEnds` | kernel/keyboard.c:95-108 | Ctrl-C and a tick from a user task to the idle task end the idle task |
| `Signals.Signalled.SignalDeliver` | kernel/scheduler.c:308-363 | the code computes this delivery: a handler that starts has rip, rdi and rsp as stated above, a task that ends has the code reported, and otherwise the frame is untouched |
| `ProgramBreak.BreakStays` | kernel/syscall.c:194-229 | the break stays in [0x510000, 0x600000]; a call fails, leaving it, exactly when it would grow past 0x600000 or needs more pages than are free |
| `ProgramBreak.Kernel.SysSbrk` | kernel/syscall.c:194-229 | returns the old break and maps every page up to the new one, or fails with the break unchanged; with one free page and no page table the mapping fails unnoticed |
| `Malloc.ChunkSplits` | some-libc/stdlib.c:75-100 | a new chunk is always split, so lines 98-100 are never reached |
| `Malloc.AllocGives` | some-libc/stdlib.c:35-101 | the pointer is 8-aligned and its block was not in use, has room and is the only one newly in use |
| `Malloc.AllocTakes` | some-libc/stdlib.c:35-72 | the first block of the list with room for header and request, rounded up to 8 bytes and no less than 32, is handed out; a rest of 32 bytes or more takes its place in the list, otherwise it goes whole |
| `Malloc.AllocGrows` | some-libc/stdlib.c:75-97 | without one the break moves by the block rounded up to whole pages and one page more; the block lies at the old break and the rest heads the list |
| `Malloc.PayloadsApart` | some-libc/stdlib.c:35-101 | payloads lie in memory obtained from sbrk and belong to one block only |
| `Malloc.AllocFailsIff` | some-libc/stdlib.c:35-79 | NULL exactly for a size that is not positive, or when no free block fits and the break cannot move |
| `Malloc.FreeTwice` | some-libc/stdlib.c:103-111 | freeing again changes nothing |
| `Malloc.FreeThenAlloc` | some-libc/stdlib.c:103-111 | the list is last in, first out: what was just freed is handed out again when it is large enough |
| `Malloc.RunKeeps` | some-libc/stdlib.c:35-111 | over any run blocks tile the memory obtained, headers stay headers and a block in use is untouched until freed |
| `Malloc.FreeIsSafe` | some-libc/stdlib.c:103-111 | a pointer that was ever returned has its header in every later state |
| `Malloc.Library.constructor` | some-libc/stdlib.c:18-19 | an empty list |
| `Malloc.Library.Search` | some-libc/stdlib.c:48-73 | the first block of the list that fits, with its predecessor; every block met is marked free |
| `Malloc.Library.TakeBlock` | some-libc/stdlib.c:57-71 | splits it or takes it whole and relinks the list |
| `Malloc.Library.Extend` | some-libc/stdlib.c:75-97 | a new chunk, split |
| `Malloc.Library.Malloc` | some-libc/stdlib.c:35-101 | the code computes the allocation that the theorems are about |
| `Malloc.Library.FreeBlock` | some-libc/stdlib.c:103-111 | a block in use goes to the head of the list, any other call changes nothing |
| `FsTree.AttachKeeps` | kernel/fs/vfs.c:191-266 | a new inode under a new name keeps the tree well formed |
| `FsTree.DetachKeeps` | kernel/fs/vfs.c:268-315 | so does removing a file or bare directory with its only entry |
| `FsTree.DetachBreaks` | kernel/fs/vfs.c:308-313 | removing it by any other entry, a dot entry among them, does not |
| `FsTree.MoveKeeps` | kernel/fs/vfs.c:398-440 | so does moving an entry, a directory's within its parent |
| `FsTree.MoveBreaks` | kernel/fs/vfs.c:436-437 | moving a directory's entry elsewhere does not |
| `FsTree.MoveKeepsIff` | kernel/fs/vfs.c:436-437 | entering an inode again and removing some entry keeps the tree well formed exactly when that entry was a proper one of the same inode, a directory stays in its parent and no other entry has the name |
| `FsTree.DamagedStays` | kernel/fs/vfs.c:492-498 | an inode without an entry, or a directory without its dot, is not mended by entering a new inode |
| `TinyFs.AroundKeeps` | kernel/fs/tinyfs.c:43-93 | a change that leaves all inodes but one with their records and blocks keeps every block marked and singly referenced |
| `TinyFs.NewNodeOk` | kernel/fs/tinyfs.c:95-157 | taking the first unmarked inode and block disturbs no other inode |
| `TinyFs.DropNodeOk` | kernel/fs/tinyfs.c:117-173 | nor does freeing an inode and its block |
| `TinyFs.WriteDirOk` | kernel/fs/tinyfs.c:180-277 | rewriting a directory's block changes that directory only |
| `TinyFs.FillOk` | kernel/fs/vfs.c:499-529 | giving a file a new first block changes no other inode |
| `TinyFs.OverwriteOk` | kernel/fs/vfs.c:467-489 | nor does writing over the first block of a file |
| `Vfs.CreateSucceedsIff` | kernel/fs/vfs.c:317-365 | create succeeds exactly when the name is new, an inode is free and the directory has room |
| `Vfs.MkdirSucceedsIff` | kernel/fs/vfs.c:191-266 | mkdir also needs a free block |
| `Vfs.CreateKeepsIff` | kernel/fs/vfs.c:317-365 | a failed create changes no directory; a successful one keeps the file system well formed exactly when the stored name is new |
| `Vfs.MkdirKeepsIff` | kernel/fs/vfs.c:191-266 | the same for mkdir |
| `Vfs.DeleteKeepsIff` | kernel/fs/vfs.c:367-396 | delete succeeds exactly on a file and a name that is there; then the file system stays well formed exactly when the name leads to that file, and everything else is kept |
| `Vfs.RmdirKeepsIff` | kernel/fs/vfs.c:268-315 | rmdir succeeds exactly on a bare directory and a name that is there; then the file system stays well formed exactly when the name is proper and leads to that directory, and it is not the current one |
| `Vfs.RenameKeepsIff` | kernel/fs/vfs.c:398-440 | for all names: when rename succeeds; it changes nothing when the new name is taken or there is no room; otherwise the file system stays well formed exactly when a proper old name leads to the inode, a directory stays in its parent and the stored name is not another entry's, or the new entry is the one removed |
| `Vfs.FillKeeps` | kernel/fs/vfs.c:499-529 | giving a file a new first block keeps the file system well formed and changes no other inode |
| `Paths.ResolveSplit` | kernel/fs/vfs.c:60-189 | a path within the buffer limits resolves to what its last component names in its parent |
| `Paths.ResolveParent` | kernel/fs/vfs.c:60-189 | so does any path whose parent is not cut, also with dot names and names over 27 characters |
| `Paths.ResolveLeads` | kernel/fs/vfs.c:60-189 | such a path that resolves is an entry of its parent; only a dot name after a file is none |
| `Paths.ResolveLive` | kernel/fs/vfs.c:60-105 | resolution ends in an inode in use |
| `FileOps.CreateResolves` | kernel/fs/vfs.c:317-365 | after a successful create the path leads to a new empty file |
| `FileOps.MkdirEnters` | kernel/fs/vfs.c:239-263 | after a successful mkdir the name leads to a new directory that holds only "." and ".." |
| `FileOps.EraseGone` | kernel/fs/vfs.c:308-313 | after a delete or rmdir the name is gone from its directory |
| `FileOps.DeletePath` | kernel/fs/vfs.c:367-396 | a path whose parent is not cut is deleted exactly when it leads to a file by an entry; every other inode is kept |
| `FileOps.DeleteKeepsPath` | kernel/fs/vfs.c:367-396 | for every path, a successful delete keeps the file system well formed exactly when the entry removed is the one the path leads to |
| `FileOps.RmdirPath` | kernel/fs/vfs.c:268-315 | the same for rmdir, with a proper last name and not the current directory |
| `FileOps.CreatePath` | kernel/fs/vfs.c:317-365 | for every path, a successful create keeps it well formed exactly when the stored name is new |
| `FileOps.MkdirPath` | kernel/fs/vfs.c:191-266 | the same for mkdir |
| `FileOps.RenamePath` | kernel/fs/vfs.c:398-440 | for every two paths, the exact condition under which rename leaves a well-formed file system |
| `FileOps.RenameMoves` | kernel/fs/vfs.c:433-439 | after a rename to a name that is new as stored, that name leads to the inode and the old one is gone |
| `FileOps.CopyReads` | kernel/fs/vfs.c:442-490 | a copy of a file of at most 4096 bytes reads like the original, into a buffer of any size |
| `FileOps.CopyKeepsSource` | kernel/fs/vfs.c:442-490 | the original is unchanged |
| `FileOps.WriteReads` | kernel/fs/vfs.c:492-608 | after a successful write cat returns the data exactly: its first 4096 bytes, as far as the buffer reaches |
| `FileOps.WriteKeepsOthers` | kernel/fs/vfs.c:492-530 | every file with another inode reads as before |
| `FileOps.SoundIff` | kernel/fs/vfs.c:191-547 | every operation, on every path, keeps the file system well formed exactly when it is sound |
| `FileOps.CopyKeepsIff` | kernel/fs/vfs.c:442-490 | for every two paths, copy keeps it well formed exactly when its create does |
| `FileOps.WriteKeepsIff` | kernel/fs/vfs.c:492-530 | for every path, write keeps it well formed exactly when its delete removes the right entry, its create stores a new name and the path does not lead to a directory |
| `FileOps.RunKeeps` | kernel/fs/vfs.c:191-547 | so does every run of sound operations |
| `Outcomes.CreateOnPath` | kernel/fs/vfs.c:317-365 | create of a path within the limits succeeds exactly when its parent is a directory with a free slot, it leads nowhere yet and an inode is free; it takes no block |
| `Outcomes.MkdirOnPath` | kernel/fs/vfs.c:191-266 | mkdir also needs a block |
| `Outcomes.RmdirOnPath` | kernel/fs/vfs.c:268-315 | rmdir succeeds exactly when the path leads to a directory that holds only its dots |
| `Outcomes.RenameOnPath` | kernel/fs/vfs.c:398-440 | rename succeeds exactly when the old path leads somewhere, and the new one nowhere yet, from a directory with a free slot |
| `Outcomes.WriteSucceedsIff` | kernel/fs/vfs.c:492-530 | a write returns the length of the data exactly when the parent is a directory and either the name is free there, with a slot, an inode and, unless the data is empty, a block free, or it is a file whose block or another one is free once it is gone; otherwise -1 |
| `Outcomes.SpaceFreed` | kernel/fs/vfs.c:367-396 | deleting a file frees its inode, its slot and its block |
| `Outcomes.CopySucceedsIff` | kernel/fs/vfs.c:442-490 | copy succeeds exactly when the source is a file, the destination leads nowhere yet from a directory with a free slot, an inode is free and, unless the file is empty, a block |
| `Outcomes.CdMoves` | kernel/fs/vfs.c:532-547 | cd succeeds exactly when the path leads to a directory, and then every relative path leads where it leads below that directory; otherwise nothing changes |
| `Outcomes.ReadPrefix` | kernel/fs/vfs.c:549-608 | a smaller buffer receives the beginning of what a larger one does |
| `FsKernel.SplitPath` | kernel/fs/vfs.c:144-189 | parent and last component, cut to 255 and 28 characters |
| `FsKernel.Disk.BlockAlloc` | kernel/fs/tinyfs.c:95-115 | the first unmarked block, now marked |
| `FsKernel.Disk.InodeAlloc` | kernel/fs/tinyfs.c:131-157 | the first unmarked inode from 1 on, now marked and cleared |
| `FsKernel.Disk.FindEntry` | kernel/fs/vfs.c:31-58 | the inode of the first entry of this name |
| `FsKernel.Disk.AddEntry` | kernel/fs/tinyfs.c:180-234 | the first free slot takes the entry, the name cut to 27 characters |
| `FsKernel.Disk.RemoveEntry` | kernel/fs/tinyfs.c:236-277 | the first entry of this name is freed |
| `FsKernel.Disk.ResolvePath` | kernel/fs/vfs.c:60-105 | the character loop computes the resolution component by component |
| `FsKernel.Disk.FsCreate` | kernel/fs/vfs.c:317-365 | the code computes create |
| `FsKernel.Disk.FsMkdir` | kernel/fs/vfs.c:191-266 | the code computes mkdir |
| `FsKernel.Disk.FsDelete` | kernel/fs/vfs.c:367-396 | the code computes delete |
| `FsKernel.Disk.FsRmdir` | kernel/fs/vfs.c:268-315 | the code computes rmdir |
| `FsKernel.Disk.FsRename` | kernel/fs/vfs.c:398-440 | the code computes rename |
| `FsKernel.Disk.FsCopy` | kernel/fs/vfs.c:442-490 | the code computes copy, and keeps a well-formed file system so exactly when its create does |
| `FsKernel.Disk.FsWriteFile` | kernel/fs/vfs.c:492-530 | the code computes the write, keeps a well-formed file system so exactly under the stated condition, and returns the length of the data exactly when there is room for it, -1 otherwise |
| `FsKernel.Disk.FsCd` | kernel/fs/vfs.c:532-547 | the current directory becomes the directory named |
| `FsKernel.Disk.FsCat` | kernel/fs/vfs.c:549-608 | the bytes of the direct block and of the blocks that the indirect block names, up to the size and the buffer |
| `FsImage.ImageOk` | tools/mkfs.tinyfs.c:99-238 | the fresh image is well formed |
| `FsImage.FreshRuns` | tools/mkfs.tinyfs.c:99-238 | so is every state that sound operations reach from it |
| `FsImage.FirstWrite` | kernel/fs/vfs.c:492-608 | on a fresh image a write to any new name in the root succeeds and reads back |
| `FsImage.LongNameBreaks` | kernel/fs/tinyfs.c:213-219 | on a fresh image, creating a 27-character name and then one that extends it leaves two equal names |
| `FsImage.CutPathLost` | tools/tinyfs-add.c:67-119 | on a fresh image with a directory of 27 characters, tinyfs-add accepts a destination that spells it with 28, and cat does not find the file |
| `FsImage.RmdirDotBreaks` | kernel/fs/vfs.c:268-315 | on a fresh image, rmdir of "bin/." succeeds and leaves the entry of a directory that is gone |
| `FsImage.RenameDotBreaks` | kernel/fs/vfs.c:433-439 | on a fresh image, rename of "hello.txt/." to "x" returns -1 and leaves the file with two names |
| `TinyfsAdd.PickIs` | tools/tinyfs-add.c:172-185 | the blocks chosen are unmarked and distinct |
| `TinyfsAdd.AddSucceedsIff` | tools/tinyfs-add.c:121-310 | the tool accepts a non-empty file exactly when its parent is a directory with a free slot, an inode is free, it has at most 1025 blocks, and as many are unmarked, one more for a file of several |
| `TinyfsAdd.ReadsBack` | tools/tinyfs-add.c:187-233 | a file laid out over the direct and indirect blocks reads back exactly |
| `TinyfsAdd.AddFileKept` | tools/tinyfs-add.c:160-310 | no block that was marked is changed except the directory's, every other inode is kept, and the new inode reads as the file |
| `TinyfsAdd.AddFileEnters` | tools/tinyfs-add.c:235-310 | under a new name of at most 27 characters the image stays well formed |
| `TinyfsAdd.ParentsAgree` | tools/tinyfs-add.c:67-119 | the kernel resolves the parent path to the directory that the tool found exactly when no component of it has more than 27 characters |
| `TinyfsAdd.AddThenCat` | tools/tinyfs-add.c:121-310 | for every non-empty file that the tool accepts under a new name, with a parent path within the kernel's buffer, cat returns exactly its bytes if and only if no component has more than 27 characters |
| `TinyfsAdd.CutUnreadable` | kernel/fs/vfs.c:60-105 | a path with a longer component cannot be read |
| `TinyfsAdd.CutInput` | tools/tinyfs-add.c:67-119 | a family of destinations that the tool accepts and cat does not find |
| `TinyfsAdd.WriteParts` | tools/tinyfs-add.c:187-233 | the loops write each part of the file to its block |
| `TinyfsAdd.AddToImage` | tools/tinyfs-add.c:121-310 | the tool's loops over the path, the directories and the bitmaps compute the image that the theorems are about |
| `ShellEnv.SaveIs` | userspace/shell.c:37-52 | what is saved is the longest prefix of the table whose lines fit in 4094 bytes |
| `ShellEnv.SaveThenLoad` | userspace/shell.c:37-78 | loading it yields exactly that prefix |
| `ShellEnv.LoadFits` | userspace/shell.c:54-78 | whatever the text, what is loaded has at most 32 entries, within the lengths that the table holds |
| `ShellEnv.SaveLoadFile` | userspace/shell.c:37-78 | also through the file system's write and cat |
| `ShellEnv.SetThenGet` | userspace/shell.c:80-107 | a variable that is set reads back, cut to 95 bytes; a new one in a full table changes nothing; no other changes |
| `ShellEnv.UnsetThenGet` | userspace/shell.c:80-121 | a variable that is unset is gone; no other changes |
| `ShellEnv.Shell.EnvSave` | userspace/shell.c:37-52 | the loop produces the saved text |
| `ShellEnv.Shell.EnvLoad` | userspace/shell.c:54-78 | the loop reads the entries of the text |
| `ShellEnv.Shell.EnvGet` | userspace/shell.c:80-86 | the value of the first entry with this key |
| `ShellEnv.Shell.EnvSet` | userspace/shell.c:88-107 | replaces or appends, within the limits, and saves the new table exactly when it changed |
| `ShellEnv.Shell.EnvUnset` | userspace/shell.c:109-121 | removes the first entry with this key and saves the new table exactly when there was one |

## Left out

- Hardware: the TLB and `invlpg`, CR3 and CR0.WP, kernel-mode access to user pages; user-mode accesses are judged by the tables alone.
- 32-bit wrap-around of `page_refcounts`, pipe reference counts and pids: counters are unbounded here.
- Page-table words are a frame number and flags, not 64-bit patterns.
- `paging_map_2mb`, `paging_unmap_2mb` and `paging_get_flags`: not used on the paths modelled; they would only add easy members.
- The branch of `paging_create` that shares a kernel entry of the top table (kernel/memory.c:286-289): the boot tables hold no such entry.
- Paging.Memory.Map: for a page in a user slot the frame must have been handed out already and hold no table, as it does for every caller.
- UserMemory.DemandPage: the flags of a region do not hold the copy-on-write bit, as those the loader registers.
- CowRefinement.CowIsEager: pages in pool frames, with demand-paged regions writable; for others see `CowRefinement.PrivateIffPooled` and `CowRefinement.WritableIff`.
- CowRefinement.CowRefinesEager: the same; the eager machine it compares with never runs out of frames.
- KernelHeap.Heap.Free: a pointer that is not the payload of a live block is not modelled.
- Vfs.RenameKeepsIff: an empty last component, which `fs_rename` refuses before it gets here, as `FileOps.RenamePath` states.
- Pipes: wake-up and progress after an end is closed (`pipe_close_end` wakes the waiter of the end that closes), and the waking of several waiters on one end.
- PipeFifo.Fifo: one reader and one writer; for more of them see `PipeShared.SharedFifo` and `PipeShared.TwoWritersSpoil`.
- Preemption between the two assignments that link a task into the ring: linking is one step.
- Scheduler.RunGood: takes the idle task never to block or exit; `Signals.IdleEnds` shows how it can.
- Signals.Signalled.SignalDeliver: the return address that a delivery pushes on the user stack, with the page it may map for it; the kernel stacks of the two tasks involved when a switching tick delivers a fatal signal.
- Malloc: `int` overflow for requests within a few pages of the largest `int`; use of `sbrk` by the program itself with amounts that are not whole pages; pointers that malloc never returned.
- ProgramBreak.Kernel.SysSbrk: the pages that a failed call has mapped before it fails stay mapped; they are recorded, but their address space is not modelled.
- Disk errors and a full kernel heap inside the file system: transfers and temporary buffers are taken to succeed.
- Blocks are typed by what they hold; reading a file's bytes as directory entries is not modelled, so `tinyfs_add_dirent` on a directory without a block, and `tinyfs-add` walking through a file, are left out.
- Outcomes.WriteSucceedsIff: paths whose parent fits the kernel's buffer and whose last name is a proper one of at most 27 characters, as for the other operations in `Outcomes`; for other paths see `FileOps.SoundIff`.
- Outcomes.ReadPrefix: blocks that hold 4096 bytes, as those on a disk do.
- FileOps.CopyReads: files of at most 4096 bytes; beyond that `fs_copy` copies only the first block.
- Reclaiming indirect blocks: `fs_delete` frees the direct block only, and so does the model.
- TinyfsAdd.AddThenCat: a destination without a last name, or whose parent path is longer than the kernel's buffer of 255 characters.
- FsKernel.Disk.FsMkdir: takes block 0, the boot sector, to be marked, as every well-formed image has it.
- TinyfsAdd.AddToImage: an empty source file, for which the tool uses an unset block number; what a failing run has written to free blocks.
- `fs_ls`, times, owners and modes of inodes, `tinyfs_init`.
- ELF loading, ATA, serial, VGA, CMOS, PIC, GDT/IDT set-up, the timer, boot and interrupt assembly, the keyboard, the kernel shell, line editing, history, printf and the small user programs.
