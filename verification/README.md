# Verification of the operating system kernel, boot chain and console

A Dafny 4.11 model of the parts of the system with the most state and arithmetic, with proofs
of what they are for.  `dafny verify dfyconfig.toml` checks everything.

What the code changes in place is a class here, with the same fields, arrays and loops:
`Queues` (queue.c), `Kernel` (process.c, stack.c, scheduler.c, syscall.c, clock.c, system.c),
`FileSystem` (fileSystem.c), `Builder` (BuildImage.c), `Loader` (bootstrap.S), `Console` and
`Keyboard` (c_io.c), and the formatters on the caller's buffer (c_io.c, ulibc.c).  Every such
method is proved to do exactly what a function of a specification module does, and the
theorems are about those functions and all runs of them:

| modules | subject |
|---|---|
| `Common` | constants, machine words, the panic outcome |
| `QueueSpec`, `QueueModule` | generic queues: sequences, and linked nodes of one shared pool |
| `KernelSpec`, `KernelModule` | the kernel as a state machine, and in place |
| `KernelInvariant`, `KernelRuns`, `KernelInPlace`, `KernelTick`, `KernelSleep`, `KernelWaking`, `KernelOverdue`, `KernelContext`, `KernelCalls`, `KernelPrograms` | its invariant, panics and waiting, wake-ups, contexts and stacks, what each call does, what processes start with |
| `FileSpec`, `FileModule`, `FileTree`, `FileMap`, `FileTheorems`, `FileBlocks`, `FilePaths` | the table of paths: a closed tree, and a finite map; blocks handed out twice; relative names |
| `BootImage`, `BootLoader`, `LoaderStack`, `BootModule`, `BootTransfers`, `StackTransfers`, `BootTheorems`, `BootLimits` | the image writer and the loader, with its stack in memory, end to end |
| `ConsoleSpec`, `ConsoleModule`, `ConsoleTheorems`, `ConsoleLayout`, `ConsoleCells` | the scrolling window, a terminal; its cells as they are read |
| `Digits`, `Formatters` | numbers to text and back |
| `KeyRing` | the keyboard buffer, a queue |

How the kernel is modelled: pointers are indices into the static arrays, NULL is -1, a panic
ends the run.  An event is a clock tick or a system call by the current process, with any
saved context, stack contents and register values that lie in its own stack; system calls
other than exit, spawnp and sleep only return a result, which is a parameter.  The idle process
makes no system calls, as its loop shows.  Stack memory is one array of words that holds the
saved contexts, as in the original.

Where the code does not meet what one would expect of it, the code is kept, one lemma states
exactly when the expectation holds, and another gives an input for which it does not:

| exactly when | input |
|---|---|
| `EnqueueSortedExactly`, `CompareTimeAgrees` | `LongSleepBreaksOrder` |
| `JoinOnTimeExactly` | `LongSleepBlocks`, `LongSleepReached` |
| `CreateKeepsUniqueExactly` | `RootFileTwice` |
| `DeleteDirectoryExactly` | `SiblingKeepsDirectory` |
| `EnterExactly` | `LongDirectoryLost` |
| `WriteReadExactly` | `WriteLimits` |
| `WriteLeavesExactly` | `SharedBlock` |
| `SplitExactly` | `NegativeAccepted`, `NegativeWraps` |
| `AddressesExactly`, `PlacesExactly`, `BootedProgram` | `SkewedProgramTorn` |
| `ReturnsExactly` | `StackOverwritten` |
| `EverythingReadExactly` | `EmptyProgramHides` |
| `StopsExactly` | `UnterminatedGoesOn` |
| `BootsExactly` | `FullDiskFreezes` |

## Model

| member | source | states |
|---|---|---|
| `QueueSpec.CompareTimeAgrees` | queue.c:80-85 | the wrapped 32-bit difference orders two wake-up times k1 and k2 as the clock does if and only if k1 - k2 is at least -2^31 and below 2^31 |
| `QueueSpec.EnqueueSortedExactly` | queue.c:301-332 | insertion leaves a sorted queue sorted if and only if the first key is less than 2^31 before the new one and the next greater key at most 2^31 behind it, both of which a caller can check; and then the new item goes after all keys not greater and before all greater ones |
| `QueueSpec.EnqueueByTimeIsStable` | queue.c:301-332 | in particular that holds within any window of less than half the range |
| `QueueSpec.LongSleepBreaksOrder` | queue.c:80-85 | an input out of reach: a wake-up at 5 is queued behind one at 0x90000000 |
| `QueueModule.EveryNodeIsListed` | queue.c:132-151 | when the lists are disjoint and their lengths add up to the pool size, every node of the array is in exactly the list its owner names: the lists partition the pool |
| `QueueModule.InsertedIsLinked` | queue.c:270-333 | relinking one held node at the slot keeps every list an acyclic chain with right `first`, `last` and `size`, all lists disjoint |
| `QueueModule.UnlinkedIsLinked` | queue.c:235-261 | the same for unlinking the head of a queue |
| `QueueModule.Queues.QnodeAlloc` | queue.c:110-120 | takes the first free node and keeps the heap partitioned, or returns NULL and changes nothing exactly when no node is free |
| `QueueModule.Queues.QnodeDealloc` | queue.c:93-102 | puts a held node back, restoring the heap shape |
| `QueueModule.Queues.QueueInsert` | queue.c:270-333 | panics exactly when items and lost nodes fill the pool; otherwise the queue holds the stable sorted insertion (append without a comparison function) and every other queue is unchanged |
| `QueueModule.Queues.QueueRemove` | queue.c:235-261 | returns and removes the first item, or NULL from an empty queue; other queues unchanged, the node goes back to the free list |
| `QueueModule.Queues.QueueInit` | queue.c:213-225 | empties the queue, sets its comparison function, and loses the nodes it still had |
| `QueueModule.Queues.QueueAlloc` | queue.c:161-182 | hands out queues in the order of the free list until enough are found or none is left |
| `QueueModule.Queues.QueueDealloc` | queue.c:190-205 | clears a queue and puts it back on the list of free queues; a null queue changes nothing |
| `QueueModule.Queues.QueueKpeek` | queue.c:363-376 | the first key, or 0 for an empty queue |
| `QueueModule.Queues.QueueDpeek` | queue.c:386-399 | the first data pointer, or NULL for an empty queue |
| `QueueModule.Queues.QueueSize` | queue.c:351-353 | the `size` field is the length of the list |
| `QueueModule.Queues.QueueModinit` | queue.c:132-151 | from zeroed static storage: all 63 nodes and all ten queues are accounted for, without a panic |
| `KernelModule.Kernel.AllocPcb` | process.c:95-107 | in place, exactly the PcbAlloc step: the first free PCB, state NEW, live count increased |
| `KernelModule.Kernel.DeallocPcb` | process.c:115-132 | in place, exactly the PcbDealloc step: PCB zeroed and queued, live count decreased, or a panic |
| `KernelModule.Kernel.FindPcb` | process.c:142-152 | the first of the first 25 slots with the PID that is asked for, or NULL when none of them has it |
| `KernelModule.Kernel.AllocStack` | stack.c:86-93 | in place, exactly the StackAlloc step |
| `KernelModule.Kernel.DeallocStack` | stack.c:101-116 | in place, exactly the StackDealloc step: all words of that stack zeroed, no other memory touched |
| `KernelModule.Kernel.NewProcess` | system.c:67-140 | in place, exactly the CreateProcess step: allocation with rollback, initial stack and context, PCB fields, next PID |
| `KernelModule.Kernel.ScheduleProcess` | scheduler.c:79-101 | in place, exactly the Schedule step, with its correction of a bad priority |
| `KernelModule.Kernel.DispatchProcess` | scheduler.c:109-131 | in place, exactly the Dispatch step: the first process of the first non-empty level, or a panic |
| `KernelModule.Kernel.WakeSleepers` | clock.c:76-101 | the wake-up loop, exactly the Wake function |
| `KernelModule.Kernel.Clock` | clock.c:62-132 | the clock interrupt, exactly the ClockIsr step |
| `KernelModule.Kernel.Exit` | syscall.c:118-130 | in place, exactly the SysExit step |
| `KernelModule.Kernel.Spawnp` | syscall.c:141-168 | in place, exactly the SysSpawnp step |
| `KernelModule.Kernel.Sleep` | syscall.c:181-207 | in place, exactly the SysSleep step, 0 included |
| `KernelModule.Kernel.SyscallIsr` | syscall.c:71-96 | selection of the handler by the code in EAX, an invalid code becoming exit, exactly the SysIsr step |
| `KernelModule.Kernel.ModinitAll` | system.c:149-337 | the module initialisers, from zeroed storage, reach the booted state without a panic |
| `KernelModule.Kernel.Boot` | system.c:149-337 | the whole of _init, in place, exactly the Init function |
| `KernelInvariant.InitKeepsInv` | system.c:149-337 | _init does not panic, and leaves the invariant, init running, and four live processes |
| `KernelInvariant.StepKeepsInv` | syscall.c:71-207 | from any state with the invariant, every entry into the kernel, tick or system call with any register values, succeeds and keeps the invariant |
| `KernelInvariant.HasRoom` | queue.c:29 | queued items and processes off the queues together never exceed 26 PCBs + 25 stacks + 2 unused queues, below the 63 nodes: an insertion always finds a node |
| `KernelInvariant.DispatchSound` | scheduler.c:109-131 | dispatch from a sound state finds a process, runs it with a quantum of 10, and leaves a sound state |
| `KernelInvariant.CreateFails` | system.c:67-88 | without a free stack, creation returns NULL and the complete state is as before: free lists, counts, next PID and memory |
| `KernelInvariant.CreateSucceeds` | system.c:67-140 | with a free stack a PCB is always free too; creation succeeds with both, and the new PCB was in no queue |
| `KernelInvariant.SpawnFails` | syscall.c:141-168 | a failed spawn changes nothing but the caller's result, which is -1 |
| `KernelInvariant.SpawnSucceeds` | syscall.c:141-168 | a spawn with a stack free succeeds, and the invariant holds after it |
| `KernelRuns.NoReachablePanic` | queue.c:270-283 | from the state of _init, no interleaving of ticks and system calls ever reaches a panic |
| `KernelRuns.OnePlace` | scheduler.c:79-131 | every PCB is in exactly one place (free, one ready level, sleeping, current), once, and its state field names the place |
| `KernelRuns.StepAdvances` | clock.c:104-111 | while nobody of a higher priority is ready or runs, no step moves a waiting process back in its level, and every tick uses up its remaining patience |
| `KernelRuns.BoundedWaiting` | clock.c:62-132 | over any such run, the process at position i of its level is dispatched within (remaining quantum) + 10 * i ticks, at most (i + 1) * 10 |
| `KernelInPlace.Start` | system.c:149-337 | on the arrays and queues themselves: _init never panics and leaves them in a state with the invariant |
| `KernelInPlace.Serve` | isr_stubs.S:68-150 | on the arrays and queues themselves: from a state with the invariant no interrupt panics, and the invariant holds again |
| `KernelInPlace.Work` | isr_stubs.S:68-150 | any events that can happen one after another take the arrays and queues through exactly the states of a run, so that every theorem about runs is one about them |
| `KernelTick.WakeReleasesDue` | clock.c:76-101 | the loop takes exactly the due prefix of the sleep queue and appends each process to the level of its priority, in that order, touching nothing else |
| `KernelSleep.SleepSetsWakeup` | syscall.c:181-207 | sleep(n) puts the caller among the sleepers for the time exactly n ticks later, unless the clock wraps before |
| `KernelSleep.NobodyOverdue` | clock.c:76-101 | on any run without a clock wrap on which every sleep ends in reach of the sleepers, in every state the sleep queue is sorted and every wake-up is still to come |
| `KernelSleep.JoinOnTimeExactly` | syscall.c:181-207 | a sleep that ends before the clock wraps keeps the queue sorted and nobody overdue if and only if its end is in reach, which can be checked before |
| `KernelSleep.ShortRunInRange` | syscall.c:181-207 | sleeps below 2^31 ticks are always in reach, so for them nothing needs to be checked |
| `KernelOverdue.StaysBehind` | clock.c:76-101 | on every run at all, a sleeper that is behind another one in the queue sleeps at least as long as that one |
| `KernelOverdue.LongSleepBlocks` | syscall.c:181-207 | on every run from _init that begins with sleep(0x90000000) and sleep(n) for an n below 2^28, the second sleeper is overdue from tick n until the clock reaches 0x90000000 |
| `KernelOverdue.LongSleepReached` | syscall.c:181-207 | such runs exist, to any time before that |
| `KernelSleep.ExactWakeup` | clock.c:76-101 | a sleeper sleeps in every state before its time and is released by the tick of precisely that time |
| `KernelSleep.SleepersInOrder` | queue.c:301-332 | two processes that sleep at once stay in the order of their wake-up times, of falling asleep where these are equal, on any run |
| `KernelSleep.AtLevelKeepsOrder` | clock.c:85-101 | processes released by one tick to one level keep their order in the sleep queue |
| `KernelWaking.ReleasedInOrder` | clock.c:76-111 | of two sleepers that a tick releases to one level, the one ahead in the sleep queue is ahead in the level, and both are ahead of a process preempted at that level |
| `KernelWaking.WakeUpOrder` | clock.c:76-111 | over any run, from falling asleep to the ready queues after the tick: of two processes released by one tick to one level, the one that fell asleep first is ahead, and both are ahead of the preempted process |
| `KernelSleep.TickWithinQuantum` | clock.c:76-111 | after such a tick every level is its old contents, then the released processes in order, and the current process goes on |
| `KernelSleep.TickAtQuantumEnd` | clock.c:76-111 | at the end of a quantum the released processes of a level are all ahead of the preempted one, and the first of the first non-empty level runs |
| `KernelContext.StepKeepsContext` | syscall.c:71-207 | no step changes the saved context, stack pointer or any stack word of a live process that is not in the CPU |
| `KernelContext.OutOfCpuKeepsContext` | syscall.c:118-207 | the same over any run for as long as the process stays out of the CPU |
| `KernelContext.SwitchedOutAsSaved` | clock.c:104-111 | a process switched out by a tick or a sleep leaves with exactly the context and stack it saved |
| `KernelContext.ResumesWhereItStopped` | clock.c:62-132 | when it is dispatched next, its context and all its stack words are those it was switched out with |
| `KernelContext.OwnStack` | stack.c:86-116 | two live processes have different stacks, and neither is on the free list |
| `KernelContext.EveryStackIsHeld` | stack.c:56-116 | a stack is free if and only if no live process owns it: none is lost, none shared |
| `KernelContext.ActiveIsLiveCount` | process.c:95-132 | the count of active processes is the number of live PCBs |
| `KernelCalls.ExitCall` | syscall.c:71-130 | a call whose saved EAX is 0 or at least 13 ends its process: the zeroed PCB and the cleared stack are last on their free lists, one live process less, no other memory changed, and the first process of the first level that is not empty has the CPU |
| `KernelCalls.SpawnCall` | syscall.c:141-168 | EAX 1 with a stack free: the first free PCB and the first free stack, and no others, become a READY process at the end of its level, with the entry point and the priority byte from the caller's first and second argument, the caller's PID as parent, and the words of its first context; of the caller's stack only the saved EAX changes, to the child's PID; the caller goes on |
| `KernelCalls.SpawnCallRefused` | syscall.c:141-155 | EAX 1 without a free stack: the complete state is as it was saved, but for the saved EAX, which is 0xFFFFFFFF |
| `KernelCalls.SleepCall` | syscall.c:181-207 | EAX 2: the stack is as saved; with an argument of 0 the caller goes to the end of its level, with n it joins the sleepers until n ticks from now; then the first process of the first level that is not empty runs |
| `KernelCalls.ReturningCall` | process.h:69-97 | EAX 3 to 12: of the complete state, nothing changes but the caller's context pointer and the word of its saved EAX, which becomes the result; EIP, ESP and all other words are as saved |
| `KernelCalls.TickCall` | clock.c:62-132 | a tick: the clock is one on, the due sleepers are at the ends of their levels, and the current process has one tick less or, at the end of its quantum, is behind them while the first in line runs; memory is as saved |
| `KernelCalls.CreationLoads` | system.c:67-140 | creation with a PCB and a stack free gives the complete new state: the first of each, PID, priority and quantum, and in the new stack the entry point, segments and flags at their places in context_t, the exit routine as return address and 0 above it, all other memory unchanged |
| `KernelPrograms.InitLaunches` | system.c:196-276 | _init leaves its four programs in the PCBs 0 to 3, each at its own entry point, priority and PID on a stack of its own, whose other words are all 0; the first runs and the others are ready |
| `KernelPrograms.StepKeepsClean` | stack.c:101-116 | every entry into the kernel keeps all free stacks cleared |
| `KernelPrograms.SpawnedRunsProgram` | system.c:67-140 | on every run from _init, a process that a spawnp takes into use has, when it is first dispatched, the entry point its parent asked for, the initial segments and flags, and 0 in every other register and word of its stack, whatever used the stack before |
| `FileModule.FileSystem.constructor` | fileSystem.c:19-68 | formatting makes exactly the table with only the root directory |
| `FileModule.FileSystem.AdjustFilename` | fileSystem.c:450-482 | the two copying loops produce Adjust(directory, name), an absolute path; what that name means is stated by `RelativeCalls` |
| `FileModule.FileSystem.FindEntry` | fileSystem.c:379-396 | the first slot with this path and type, or slot 0 |
| `FileModule.FileSystem.CreateEntry` | fileSystem.c:74-173 | in place, the table and return code of Create, for all names and types |
| `FileModule.FileSystem.DeleteEntry` | fileSystem.c:178-244 | in place, the table and return code of Delete |
| `FileModule.FileSystem.ReadFile` | fileSystem.c:249-298 | returns what Read describes: nothing, one space, or the stored bytes |
| `FileModule.FileSystem.WriteFile` | fileSystem.c:303-342 | in place, the blocks, size and return code of Write, for any length |
| `FileModule.FileSystem.ChangeDirectory` | fileSystem.c:418-445 | in place, the directory and return code of SetDirectory |
| `FileTree.AdjustIsAbsolute` | fileSystem.c:450-482 | an adjusted name is absolute, and adjusting it again, in any directory, changes nothing |
| `FileTree.ExistsIs` | fileSystem.c:379-396 | the answer read as its callers read it: present exactly for a stored path and type other than the root |
| `FileTree.ParentsAre` | fileSystem.c:117-140 | the walk over the separators accepts a path exactly when every prefix before a later separator is a stored directory |
| `FileTree.AlwaysTree` | fileSystem.c:74-244 | after any sequence of calls with any names, every prefix of a stored path before a separator is a stored directory other than the root, which is in slot 0 |
| `FileMap.CallRefines` | fileSystem.c:74-482 | each call on paths that fit does to the map from (path, type) to contents what the map call does, with the same return code; create returns 0 exactly for an absent key with all parents present and room among 512 |
| `FileMap.ReadRefines` | fileSystem.c:249-298 | a read returns the contents the map holds |
| `FileTheorems.FormattedIsGood` | fileSystem.c:19-68 | the formatted table refines the map that holds just the root |
| `FileTheorems.RunRefines` | fileSystem.c:74-482 | the refinement holds over every sequence of calls that fit |
| `FileTheorems.ReadBack` | fileSystem.c:249-342 | what was written last is read back (one space if empty) after any calls on other files, within the first 256 blocks |
| `FileTheorems.WriteReadExactly` | fileSystem.c:303-342 | a read gives back a write of any length exactly when it has 1 to 511 bytes |
| `FileTheorems.LongWriteCut` | fileSystem.c:303-342 | of a longer write the first 511 bytes are read, as long as its blocks do not bring the counter round |
| `FileTheorems.WriteLimits` | fileSystem.c:292-297 | inputs, on a freshly formatted system: of 512 bytes 511 come back, and of none one space |
| `FileBlocks.WriteLeavesApart` | fileSystem.c:303-342 | in any table, a write of any length leaves every other file alone whose block it does not take |
| `FileBlocks.WriteLeavesExactly` | fileSystem.c:303-342 | in any table, a write within one block leaves another file alone if and only if their blocks differ or it writes what the other holds |
| `FileBlocks.SharedBlock` | fileSystem.c:157-162 | an input: after 255 files that come and go, the 257th file shares the block of the first, and a write to it changes the first |
| `FilePaths.RelativeCalls` | fileSystem.c:450-482 | with current directory d, create, delete, write, read and change of directory do for a relative name n exactly what they do for d/n, and in the root directory for /n |
| `FilePaths.AbsoluteCalls` | fileSystem.c:450-482 | for an absolute name they do the same in every directory |
| `FilePaths.EnterExactly` | fileSystem.c:418-445 | a change to a path succeeds if and only if the directory is stored, and then makes exactly this path the current directory if and only if it has at most 222 characters |
| `FilePaths.LongDirectoryLost` | fileSystem.c:418-445 | an input: a directory with a path of 223 characters can be created and entered, and then nothing can be created in it |
| `FilePaths.CreatedInside` | fileSystem.c:74-173 | after a change to a stored directory, a simple name is stored under the path of that directory if and only if it is new there and a slot is free |
| `FilePaths.InitFileTest` | system.c:281-308 | the file test of _init gives 0, 0, 1, 0, reads back what it wrote, and leaves the table as it was |
| `FilePaths.FormattedHoldsRoot` | fileSystem.c:19-68 | the two tests start from the table that _sfs_init makes |
| `FilePaths.InitDirectoryTest` | system.c:314-330 | the directory test of _init gives 0, 0, 0, 0, 0, 0, 0, 2, 2 and leaves exactly the six entries that its relative and absolute names stand for |
| `FileTheorems.CreateKeepsUniqueExactly` | fileSystem.c:108-160 | a creation keeps the keys unique if and only if the name as stored, cut to 255 characters, is new |
| `FileTheorems.FittingNamesStayUnique` | fileSystem.c:108-160 | for paths below 256 characters other than "/" the code's own check suffices |
| `FileTheorems.RootFileTwice` | fileSystem.c:110-113 | a file named "/" can be created twice, after which two entries have the same key |
| `FileTheorems.DeleteDirectoryExactly` | fileSystem.c:208-241 | a directory is deleted if and only if nothing is inside it and no stored path merely begins with its name |
| `FileTheorems.SiblingKeepsDirectory` | fileSystem.c:216-238 | the empty directory /a cannot be deleted while a file /ab exists |
| `BootModule.Builder.CopyFile` | BuildImage.c:77-102 | appends the file padded with zeros to whole sectors and counts them |
| `BootModule.Builder.ProcessFile` | BuildImage.c:144-178 | accepts exactly the programs within bounds while there is room in the table, and stores their three words in front of the table |
| `BootModule.Builder.BuildImage` | BuildImage.c:239-333 | produces exactly the specified image, or none exactly when it is specified to quit |
| `BootImage.BuildExactly` | BuildImage.c:144-319 | an image is written if and only if there are 1 to 85 programs, the whole sectors of each end at or below 0x9FFFF, and the bootstrap ends with enough zeros for the table |
| `BootImage.ImageHolds` | BuildImage.c:296-331 | behind a bootstrap of two sectors all programs follow in order, and of the bootstrap only the table and the drive word change |
| `BootImage.EntryHolds` | BuildImage.c:176-178 | the three words of program i are found 6 * i bytes below the end of the bootstrap: the table in reverse order |
| `BootImage.SplitExactly` | BuildImage.c:144-150 | segment and offset give back the address if and only if it is not negative |
| `BootImage.NegativeAccepted` | BuildImage.c:149-165 | a negative address passes both checks, and its split is 0xFFFF0 |
| `BootLoader.ForwardWalks` | bootstrap.S:177-198 | for every geometry with two or more sectors per track the next transfer is at the next linear sector, unless that is the first one of track 80 |
| `BootTransfers.ReadProgIs` | bootstrap.S:140-208 | for every segment and offset, with the stack apart: a block of n sectors is read exactly when every transfer works within three tries and the 80 tracks do not end, and memory is then what its n transfers leave |
| `BootTransfers.ReadProgAtTarget` | bootstrap.S:140-175 | for every segment and offset, when sector k has been read each of its bytes is at its target |
| `BootTransfers.SentStraight` | bootstrap.S:166-175 | a block that starts on a sector boundary of its segment, or ends within it, is contiguous in memory, across segment ends |
| `BootTransfers.AddressesExactly` | bootstrap.S:166-175 | all targets of a program are where its address says if and only if it starts on a 16-byte boundary or has at most 127 sectors |
| `BootTransfers.PlacesExactly` | bootstrap.S:140-208 | of a program clear of the loader: readprog leaves it whole at its address under the same condition and only then, unless memory already holds what is missing |
| `StackTransfers.RoundsAre` | bootstrap.S:140-208 | with the stack in memory, where the counts and addresses lie and the BIOS leaves anything below them: a block clear of it is read as if the stack were apart, and the stack above is kept |
| `StackTransfers.CallIs` | bootstrap.S:98-132 | so a call for such a block never returns elsewhere, and comes back exactly when all transfers work |
| `StackTransfers.ReturnsExactly` | bootstrap.S:199-208 | of a sector that goes over the sector count and the return address: if the word in place of the count ends the call, it comes back if and only if the word in place of the address is that address, and goes where it says if not |
| `BootTheorems.EverythingReadExactly` | bootstrap.S:118-132 | for programs clear of the loader: a boot that finishes has read the sectors of all programs if and only if no program that has any follows an empty one in the table |
| `BootTheorems.ProgramBehindEmpty` | bootstrap.S:118-121 | a program behind an empty one is not loaded: its place in memory, if the loader does not use it, is as it was before |
| `BootTheorems.StopsExactly` | BuildImage.c:304-319 | for programs clear of the loader: a boot that finishes has stopped after their sectors if and only if the word below the table is zero, which the image writer does not check, or an empty program ends the table |
| `BootTheorems.BootsExactly` | bootstrap.S:98-132 | from any disk that starts with the image of programs clear of the loader (no byte below 0x500, where the interrupt vectors and the BIOS data are, nor in 0x7C00-0xBBFF, its code and stack), the running loader with its stack in memory never goes astray; it finishes exactly when all transfers work and 2 + all sectors stay below the capacity of 80 tracks, and then memory outside the stack and the BIOS data is what the transfers of the programs leave |
| `BootTheorems.BootedProgram` | BuildImage.c:144-178 | after booting, such a program in front of an empty one that no later one touches is in memory as it is on the disk if and only if it starts on a 16-byte boundary or has at most 127 sectors |
| `BootLimits.SkewedProgramTorn` | BuildImage.c:144-150 | an input: 128 sectors at 0x10001 are accepted and boot, and a byte of the program is not in memory |
| `BootLimits.NegativeWraps` | bootstrap.S:163-175 | an input: the program at address -16 is accepted, and read over the end of the first megabyte and the interrupt vectors |
| `BootLimits.StackOverwritten` | bootstrap.S:51-55 | an input: a sector at 0xBA00 is accepted, and the loader returns to an address taken from it |
| `BootLimits.EmptyProgramHides` | bootstrap.S:118-121 | an input: an empty program in front of another, which is accepted, boots, and is not loaded |
| `BootLimits.FullDiskFreezes` | bootstrap.S:187-194 | inputs: on a disk of 160 sectors, a program of 158 sectors is accepted and freezes the loader, and every smaller one boots |
| `BootLimits.UnterminatedGoesOn` | BuildImage.c:310-319 | an input: a bootstrap without a zero word below the table is accepted, and a boot that finishes has read more than the program |
| `BootModule.Loader.TryTransfer` | bootstrap.S:143-161 | one sector by at most three attempts, the retry count on the stack meanwhile, else a freeze |
| `BootModule.Loader.NextSector` | bootstrap.S:177-198 | the registers step exactly as Forward describes, freezing at track 80 |
| `BootModule.Loader.ReadBlock` | bootstrap.S:140-208 | the loop on registers, memory and stack is exactly Rounds |
| `BootModule.Loader.CallReadBlock` | bootstrap.S:102-208 | the call with its return address on the stack: freezes, goes elsewhere or comes back exactly as Call says |
| `BootModule.Loader.LoadEntry` | bootstrap.S:118-132 | one entry of the table, %di on the stack during the call, exactly Block |
| `BootModule.Loader.LoadTable` | bootstrap.S:118-132 | the loop over the table, going on where the stack says, is exactly Blocks |
| `BootModule.Loader.Load` | bootstrap.S:98-132 | second sector, size for the kernel, table: exactly Loads |
| `ConsoleModule.Console.SetScroll` | c_io.c:112-120 | the region is the requested one confined to the screen, the cursor at its top left |
| `ConsoleModule.Console.MoveCursor` | c_io.c:125-129 | the cursor moves as MoveTo says, the rest of the state unchanged |
| `ConsoleModule.Console.PutCharacter` | c_io.c:163-200 | video memory and cursor become exactly what PutChar gives |
| `ConsoleModule.Console.ClearScroll` | c_io.c:236-248 | the region is blanked in place, nothing else changes |
| `ConsoleModule.Console.ScrollUp` | c_io.c:261-295 | line by line in place, exactly Scroll |
| `ConsoleTheorems.ScrollIs` | c_io.c:261-295 | the region afterwards is its old rows without the first n, then n blank rows; cells outside keep their contents |
| `ConsoleTheorems.PutShows` | c_io.c:163-200 | a character keeps the window showing the last rows of an unbounded page that never scrolls, with the cursor in step |
| `ConsoleTheorems.DoShows` | c_io.c:112-295 | the same for moving, clearing and scrolling; a coordinate whose sum overflows counts as 0 |
| `ConsoleTheorems.WindowIsTerminal` | c_io.c:112-295 | after any sequence of calls the window shows the end of the page they describe and no cell outside the region has changed |
| `ConsoleTheorems.WindowFromAnyScreen` | c_io.c:112-295 | the same from any screen, whose region is then the page to begin with |
| `ConsoleLayout.LayoutGrows` | c_io.c:163-200 | the layout of a text in rows, wrapped at the width, written over from the start of a row after a carriage return and cut at the cursor by a newline: one more character changes it at its end only |
| `ConsoleLayout.PlainIsWrapped` | c_io.c:163-200 | for text without carriage returns that layout is its lines, cut into rows of the width |
| `ConsoleCells.PutReads` | c_io.c:163-200 | the cell at the cursor has the character in its low byte, and in its high byte 7 or the colours that came with it; the cursor goes on, or to the next row |
| `ConsoleCells.PutElsewhere` | c_io.c:163-200 | where nothing scrolls, no other cell changes |
| `ConsoleCells.NewlineReads` | c_io.c:163-200 | a newline leaves spaces from the cursor to the end of its row |
| `ConsoleCells.ClearReads` | c_io.c:236-248 | a cleared region reads as spaces, white on black |
| `ConsoleCells.ScrollReads` | c_io.c:261-295 | every cell of the region is the one so many rows below, or a space |
| `ConsoleCells.SetScrollNearest` | c_io.c:112-120 | each corner is the place on the screen nearest to what is asked for, the lower right one not before the upper left; the cursor is at the upper left, and no cell changes |
| `ConsoleCells.InitRegion` | system.c:165 | the call of _init gives columns 0 to 79 and rows 7 to 24 |
| `ConsoleCells.MoveToNearest` | c_io.c:125-129 | the cursor goes to the place in the region nearest to the one asked for, as long as the sums do not overflow |
| `ConsoleCells.WindowShowsText` | c_io.c:163-200 | from a cleared region, text of any length and with any characters can be read there: each place has the character of the last rows of its layout, or a space behind the end of the row, and the cursor is in the last row, the scroll delayed |
| `Digits.DecimalInverts` | c_io.c:312-323 | reading the decimal text gives back every 32-bit value, the most negative one included, and there are no leading zeros |
| `Digits.DecimalFits` | c_io.c:410-419 | the text has at most 11 characters, so it fits the 12-byte buffer with its terminator |
| `Digits.NumeralLength` | c_io.c:297-310 | a numeral has at most k digits exactly when the value is below base^k |
| `Digits.HexInverts` | ulibc.c:136-152 | reading the hexadecimal text gives back the unsigned value; eight digits when all are wanted, else no leading zero |
| `Formatters.CvtDec0` | c_io.c:297-310 | writes the digits, with the special case of the most negative value, at the pointer and nothing else |
| `Formatters.CvtDec` | c_io.c:312-323 | leaves exactly the decimal text and its terminator in the buffer and returns the length |
| `Formatters.CvtHex` | c_io.c:327-347 | leaves exactly the shortest hexadecimal text and its terminator |
| `Formatters.ItoS16` | ulibc.c:136-152 | the same, or all eight digits when asked |
| `KeyRing.StoreRefines` | c_io.c:620-628 | a character joins the end of the queue while fewer than 199 wait, and is dropped without any change otherwise |
| `KeyRing.DequeueRefines` | c_io.c:655-656 | removal takes the oldest waiting character |
| `KeyRing.InputQueueCounts` | c_io.c:683-690 | the count is the number of waiting characters across the wrap-around, and equal places mean none |
| `KeyRing.FirstInFirstOut` | c_io.c:584-661 | over any interleaving of keys and reads, what was read followed by what waits is what was accepted: in order, nothing lost, nothing twice |
| `KeyRing.Keyboard.StoreChar` | c_io.c:620-628 | in place, exactly Store |
| `KeyRing.Keyboard.TakeChar` | c_io.c:655-656 | in place, exactly Dequeue |
| `KeyRing.Keyboard.CountQueue` | c_io.c:683-690 | returns the number of waiting characters |

## Left out

- Hardware: port writes, interrupt controller and IDT setup, A20 and GDT code, `startup.S`, the USB driver, cursor-port programming.  The interrupt stubs appear as storing and loading the context of a process.
- The processes and the shell in `user.c`; a user process is any sequence of events it may cause.
- The serial buffers of `sio.c`, whose pointers do not wrap, and the octal converters, which do not invert.
- WriteFile: does not append. Files beyond one block and appends are left out: blocks are never linked, and an append starts one byte early.  The block counter after 256 creations reuses blocks, which the refinement excludes; what a write then does to another file is stated by `WriteLeavesExactly`.
- The clearing of blocks and names in a delete, which asks for a length of 0, and the walk along blocks that are never linked.
- The fixed-address and string-literal buffers of `fileSystem.c`: they are values here, so overlapping uses of one literal are not seen.  `_sfs_list` and debug output are not modelled.
- Sleeping across the wrap of the 32-bit clock: `ExactWakeup`, `NobodyOverdue` and `SleepersInOrder` are about runs on which the clock does not pass 2^32 and sleeps end in reach, as all sleeps below 2^31 ticks do.
- FindPcb: does not find the PCB in the last slot, because the loop of `_pcb_find` stops one slot short; PIDs are unique only until the 16-bit counter wraps, so nothing is claimed about uniqueness.
- SyscallIsr: of the other system calls only the result in the caller's context is modelled; their effects on devices and files, and their blocking, are not part of the kernel machine.
- QueueDealloc: what a deallocated or reinitialised queue still held is lost to the pool in the code; the model keeps such nodes on a list of lost ones.
- The addresses and flags that other files define (`__default_exit__`, the initial EFLAGS, the entry points of the programs) are parameters.
- ModinitAll: the device modules that `_init` also starts (interrupts, console, clock, serial line, file system) are not part of the kernel state.
- Boot: for the same reason its calls of those modules and of the file system are left out; it creates the four processes in the same order.
- BootsExactly: says nothing about programs over the interrupt vectors and the BIOS data (below 0x500), the bootstrap's own 1024 bytes (from 0x7C00) or the loader's stack (0x8000-0xBBFF), which the image writer accepts: what a BIOS does with foreign vectors or frames, and what a changed loader does, is not modelled. Of the stack that is modelled, the loader's own words, an overwritten return address is followed exactly (`ReturnsExactly`, `StackOverwritten`).
- Of the BIOS it is assumed that it uses no memory but the part below 0x500 and the stack, down to 0x8000; that a transfer which runs over the end of a 64K segment goes on at its beginning, which makes the difference between 127 and 128 sectors in `PlacesExactly` and `AddressesExactly`; and that a transfer behind the end of the disk's contents fails. What happens behind `done_loading`, such as moving the GDT to 0x500, is left out.
- The `segment:offset` form of load addresses, whose validity test cannot succeed; argument parsing and messages; files of 2 GB and more, whose size overflows.
- printf, the dumps, `c_putchar_at` and `c_clearscreen`.  c_getchar's waiting and echo: a read of an empty ring is a step that changes nothing.
- The scan code table and the shift and control keys: the character stored is an input of `KeyRing.Store`.
- CvtDec: `itos10` and `itos10x` (ulibc.c:70-100) are the same code as `cvtdec` and `cvtdec0` and are not repeated.
