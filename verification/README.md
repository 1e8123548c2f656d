# Verified models of the kernel and firmware simulators

Dafny models of four components, each with its specification as functions over values, lemmas about that
specification, and classes whose methods do in place what the C functions do and are proved equal to it.

| directory | component | source |
|---|---|---|
| `cpu/` | a multicore CPU with MESI caches, store buffers and a bus lock | `firmwareLearning/cpu_isa.c` |
| `dispatcher/` | the priority dispatcher with transitive priority inheritance, reference counting, IRQLs and DPCs | `BLUE_KERNEL/BlueKernel_lvl3.c` |
| `pci/` | BAR probing and assignment, and routing of memory-mapped accesses | `B_Kernel/` |
| `irq/` | delivery of device interrupts to CPUs and of device data to deferred calls | `BLUE_KERNEL/IRQ_KernelDeal.c` |

`dafny verify dfyconfig.toml` checks everything.

**CPU.** `Isa`, `CacheLines`, `StoreBuffers` and `Machines` give the transitions for any number of cores.
`Coherence` proves MESI safety unconditionally and relates the caches to one logical memory, `CacheEffects` gives
the MESI transitions copy by copy. `Simulation` proves
that every interleaving refines a machine of registers, flat memory and store queues as long as no step drops the
last SHARED copy of a word that differs from memory, which the code can do: `LossyRun` runs two programs from empty
caches to such a loss. For FENCE, which may lose what it stores to again, `Fences` has the exact condition.
`BusLock` and `MessagePassing` prove the locked windows and the two-core program of `main` under every
interleaving. `Instructions` compares whole instructions with the older handler functions of the same file, and
`InstructionEffects` says in plain arithmetic what a run of each leaves in registers, flags, queue and memory.
`Multicores` holds the in-place code.

**Dispatcher.** `BitScan`, `ReadyQueues` and `ReadyTables` hold the bitmap, the rings and the De Bruijn search.
`Kernels` gives every operation, `QueueInvariant` and `Scheduling` the queues and the pick, `Inheritance` and
`BoostChain` mutexes and the boost chain, `DispatcherRuns` arbitrary sequences of operations, `OrderlyRuns` those
in which `Schedule` may be called at any point and one that loses a thread, `Dispatchers` the in-place code.
`References` runs the dispatcher and the handle tables together and counts the references between them,
`ObjectManagers` does so in place, and `Irql` is the nested interrupts with their DPC ring. `DispatcherEffects` and
`ReferenceEffects` describe what each call leaves behind by states, positions, flags and counts alone, and prove
that a reference keeps its object alive. Requirements that the code does not meet everywhere are stated as
conditions a caller can check, with both directions proved: bit 31, the early return of `Schedule`, release by an
owner of two mutexes.

**PCI.** `ConfigSpace` is one function's registers with the write-all-ones protocol of section 6.2.5.1 of the
PCI Local Bus Specification 3.0, `Probing` what `GetPciBarInfo` reports and exactly when it is right,
`Allocation` the address counters, `MaskRounding` their masks, and `AssignedRouting` what the router finds
afterwards. `Routing` walks buses and bridge windows (section 3.2.5 of the PCI-to-PCI Bridge Architecture
Specification 1.2), and `RoutedMemory` shows that routed accesses are accesses to one little-endian byte map.
`Words` reads registers and addresses as numbers bit by bit; on these numbers `RegisterEffects` states what writing
and probing do, `RoutingEffects` which device is found and `AccessEffects` which bytes an access reads.

**Interrupts.** `VectorScan` is the 64-bit De Bruijn search, `Delivery` the events, vectors, service routines and
deferred calls up to the system that `SystemInit` builds, `InterruptEffects` what an event does to every CPU and the
whole run of `SystemInit`, `DeviceBuffers` and `InterruptSystems` the in-place code.

Where the code and its comments disagree the model follows the code. Comments in `BlueKernel_lvl3.c` promise that
the highest-priority READY thread runs; `Schedule` does not compare its pick with the thread it preempts, and
`ScheduleRunsHighestIff` says when the promise holds. The message in `StoreBufferPush` announces a forced drain of a
full buffer; the code drops the store.

## Model

| member | source | states |
|---|---|---|
| `Isa.DecodeInvertsEncode` | firmwareLearning/cpu_isa.c:115-134 | decoding an encoded instruction gives back every field that fits its width |
| `Isa.EncodeInvertsDecode` | firmwareLearning/cpu_isa.c:115-134 | encoding the decoded fields of any 32-bit word gives back the word |
| `StoreBuffers.PushAppends` | firmwareLearning/cpu_isa.c:314-334 | a push appends to the queue of pending stores, and is dropped when four are pending |
| `StoreBuffers.PopDropsOldest` | firmwareLearning/cpu_isa.c:336-351 | draining removes the oldest pending store and keeps the order of the rest |
| `CacheLines.EvictedView` | firmwareLearning/cpu_isa.c:389-399 | evicting a slot removes exactly the line it held from what the cache answers |
| `CacheLines.SnoopedView` | firmwareLearning/cpu_isa.c:409-439 | a snoop changes only the line asked for: gone on a write, SHARED on a read, data kept |
| `CacheEffects.EmptySlotOutcome` | firmwareLearning/cpu_isa.c:389-407 | for every core and line: a core that needs a slot gives up the line in its first one exactly when all eight are taken, a MODIFIED line is written to memory, and nothing else changes |
| `CacheEffects.HitOutcome` | firmwareLearning/cpu_isa.c:441-453 | CacheLoad on a line its core holds changes nothing |
| `CacheEffects.MissOutcome` | firmwareLearning/cpu_isa.c:441-492 | for every core and line after a miss: the line is brought in, SHARED with the data of the other copies when another core holds it and EXCLUSIVE from memory otherwise; the other copies become SHARED; nothing else but the evicted line changes |
| `CacheEffects.WriteOutcome` | firmwareLearning/cpu_isa.c:494-523 | CacheWriteDirect leaves its core with the only copy, MODIFIED, with one word changed; every other line and memory are as CacheLoad leaves them |
| `Coherence.LoadCoherent` | firmwareLearning/cpu_isa.c:441-492 | CacheLoad keeps MESI safety: one copy per cache, EXCLUSIVE or MODIFIED excludes other copies, copies agree, EXCLUSIVE equals memory |
| `Coherence.LoadReadsFlat` | firmwareLearning/cpu_isa.c:441-492 | CacheLoad returns the word of the logical memory: of any cached copy, or else of main memory |
| `Coherence.LoadKeepsFlatIff` | firmwareLearning/cpu_isa.c:389-492 | CacheLoad leaves the logical memory unchanged exactly when it does not evict the last SHARED copy of a line that differs from memory |
| `Coherence.WriteCoherent` | firmwareLearning/cpu_isa.c:494-523 | CacheWriteDirect keeps MESI safety |
| `Coherence.WriteUpdatesFlatIff` | firmwareLearning/cpu_isa.c:494-523 | CacheWriteDirect changes exactly one logical word, exactly when its load evicts no last differing SHARED copy |
| `Coherence.WriteAfterLoad` | firmwareLearning/cpu_isa.c:494-523 | relative to the state its load leaves, CacheWriteDirect always changes exactly one logical word |
| `LossyRun.LossReached` | firmwareLearning/cpu_isa.c:389-492 | two programs run from empty caches reach a state in which core 1's published 7 is SHARED in core 0's full cache only and memory still holds 0; core 0's next load makes the word 0, which no step of the flat machine does |
| `Coherence.DrainCoherent` | firmwareLearning/cpu_isa.c:336-351 | draining one store keeps MESI safety and the remaining queue |
| `Fences.LosesWordIff` | firmwareLearning/cpu_isa.c:389-492 | an access changes a logical word exactly when it evicts the last, SHARED, copy of that word and memory holds another value |
| `Fences.FlushKeepsSole` | firmwareLearning/cpu_isa.c:353-358 | a flush never loses a word of a line that only the flushing core may hold and does not hold SHARED, such as one it has stored to |
| `Fences.FlushIff` | firmwareLearning/cpu_isa.c:353-358 | a flush applies the queued stores to logical memory, oldest first, exactly when every word a drain loses is stored to by that store or a later one of the flush |
| `Simulation.StepCoherent` | firmwareLearning/cpu_isa.c:578-845 | every micro-op of every core keeps MESI safety, whatever is evicted |
| `Simulation.StepSimulates` | firmwareLearning/cpu_isa.c:578-845 | a benign micro-op is the same micro-op of a machine without caches: LOAD reads flat memory, STORE queues, only FENCE changes memory |
| `Simulation.StepSimulatesOnlyIf` | firmwareLearning/cpu_isa.c:578-845 | benign is also necessary, for every micro-op including FENCE: any other step differs from the flat machine's |
| `Simulation.RunCoherent` | firmwareLearning/cpu_isa.c:578-845 | MESI safety in every reachable state of every interleaving over any number of cores |
| `Simulation.RunSimulates` | firmwareLearning/cpu_isa.c:578-845 | every interleaving whose steps are benign refines the flat machine, step for step |
| `Instructions.SoloIsFlatStep` | firmwareLearning/cpu_isa.c:578-845 | the part of a step that concerns the stepping core of the flat machine |
| `Instructions.FetchDecodes` | firmwareLearning/cpu_isa.c:601-653 | FETCH and DECODE load the instruction at pc, advance pc and change nothing else a program can see |
| `Instructions.RegisterInstruction` | firmwareLearning/cpu_isa.c:163-204 | LIC, ADD, SUB, CMP and HALT as micro-ops do what their handler functions do at once |
| `Instructions.JumpIff` | firmwareLearning/cpu_isa.c:206-244 | the jumps do what their handlers do, for JGT exactly unless the flags say less and the target is not the next instruction |
| `Instructions.LoadIff` | firmwareLearning/cpu_isa.c:137-149 | LOAD does what its handler does exactly when no queued store is about to change the word |
| `Instructions.StoreIff` | firmwareLearning/cpu_isa.c:151-161 | STORE, once published, does what its handler does exactly when the buffer has room or the word already has that value |
| `Instructions.LockIncIff` | firmwareLearning/cpu_isa.c:246-261 | LOCK_INC, once published, does what its handler does exactly when the buffer has room and no queued store is about to change the word |
| `Instructions.CmpxchgIff` | firmwareLearning/cpu_isa.c:263-286 | CMPXCHG at the address in its register, once published, does what its handler does exactly when no queued store is about to change the word and a swap that changes it finds room |
| `Instructions.FenceSettles` | firmwareLearning/cpu_isa.c:831-835 | FENCE empties the queue and changes nothing a program sees once its stores are published |
| `InstructionEffects.EncodePlaces` | firmwareLearning/cpu_isa.c:115-134 | an encoded instruction has the opcode in bits 24-31, the destination in 20-23, the source in 16-19, the mode in 14-15 and the immediate in 0-13 |
| `InstructionEffects.DecodePlaces` | firmwareLearning/cpu_isa.c:127-135 | a word with fields in those places decodes to them |
| `InstructionEffects.AddEffect` | firmwareLearning/cpu_isa.c:705-714 | a run of ADD leaves in its destination the sum r with r == x + y or r + 2^32 == x + y, and changes no other register, flag, store or word |
| `InstructionEffects.SubtractEffect` | firmwareLearning/cpu_isa.c:715-724 | a run of SUB leaves in its destination r with r + y == x or r + y == x + 2^32 for destination x and source y, and changes nothing else |
| `InstructionEffects.LoadConstantEffect` | firmwareLearning/cpu_isa.c:700-704 | a run of LIC puts the immediate into its destination and changes nothing else |
| `InstructionEffects.CompareEffect` | firmwareLearning/cpu_isa.c:725-733 | a run of CMP stores the difference, sets the zero flag exactly for equal operands and the sign flag exactly when the destination is below the source, and changes no register |
| `InstructionEffects.HaltEffect` | firmwareLearning/cpu_isa.c:836-845 | a run of HALT halts the core and changes nothing else |
| `InstructionEffects.JumpEffect` | firmwareLearning/cpu_isa.c:734-766 | a run of a jump goes to its address under its condition on the flags, and else to the next instruction |
| `InstructionEffects.LoadEffect` | firmwareLearning/cpu_isa.c:663-687 | a run of LOAD puts the word at its address into its destination and changes nothing else |
| `InstructionEffects.StoreEffect` | firmwareLearning/cpu_isa.c:688-699 | a run of STORE appends its register's value to the queued stores, four at most, and changes nothing else |
| `InstructionEffects.LockIncEffect` | firmwareLearning/cpu_isa.c:767-790 | a run of LOCK_INC queues the word it read plus one, modulo 2^32 |
| `InstructionEffects.CompareExchangeEffect` | firmwareLearning/cpu_isa.c:791-830 | a run of CMPXCHG sets the zero flag exactly when the word equals R15, then queues the destination; else it loads the word into R15 |
| `InstructionEffects.FenceEffect` | firmwareLearning/cpu_isa.c:831-835 | a run of FENCE empties the queue; each word becomes what the last queued store to it wrote, or stays |
| `InstructionEffects.UnknownEffect` | firmwareLearning/cpu_isa.c:611-661 | an opcode without a case is decoded over and over and changes nothing |
| `BusLock.OthersWait` | firmwareLearning/cpu_isa.c:594-597 | while the bus is locked no schedule of the other cores, however long, changes any register, cache, buffer or memory word |
| `BusLock.StepKeepsLock` | firmwareLearning/cpu_isa.c:767-830 | every step keeps the lock invariant: locked exactly while the recorded owner is inside LOCK_INC or CMPXCHG, and the value it read is still the logical value |
| `BusLock.RunKeepsLock` | firmwareLearning/cpu_isa.c:767-830 | the lock invariant over every interleaving |
| `BusLock.ExclusionFromReset` | firmwareLearning/cpu_isa.c:767-830 | from empty caches, cores at FETCH and a free bus on, over every interleaving the caches are coherent, no two cores are inside LOCK_INC or CMPXCHG at once, and the bus is locked exactly while its recorded owner is |
| `BusLock.CompareStillHoldsAtStore` | firmwareLearning/cpu_isa.c:793-822 | whenever a core is about to do CMPXCHG_STORE, logical memory still holds the expected value it compared with |
| `MessagePassing.InitialInvariant` | firmwareLearning/cpu_isa.c:870-904 | the machine main builds satisfies the invariant of the two programs |
| `MessagePassing.InvariantStep` | firmwareLearning/cpu_isa.c:876-914 | every step of either core keeps that invariant: the flag is published only after the data |
| `MessagePassing.MessagePasses` | firmwareLearning/cpu_isa.c:876-914 | under every interleaving of the two programs, if core 1 halts then its R3 is 1 and its R4 is 42 |
| `Multicores.Multicore.CacheFind` | firmwareLearning/cpu_isa.c:361-370 | returns the slot a search for the line finds, or -1 |
| `Multicores.Multicore.CacheEvictLine` | firmwareLearning/cpu_isa.c:389-399 | in place, the eviction of a slot: MODIFIED lines are written back word by word |
| `Multicores.Multicore.CacheGetEmpty` | firmwareLearning/cpu_isa.c:401-407 | in place, the first INVALID slot, or slot 0 after evicting it |
| `Multicores.Multicore.CacheSnoop` | firmwareLearning/cpu_isa.c:409-439 | in place, the snoop of one cache, and exactly when it offers its data on the bus |
| `Multicores.Multicore.CacheSnoopOtherCores` | firmwareLearning/cpu_isa.c:533-539 | in place, the snoop of every other core, and whose data ends up on the bus |
| `Multicores.Multicore.CacheLoad` | firmwareLearning/cpu_isa.c:441-492 | in place, the transition Load, and the word it returns |
| `Multicores.Multicore.FillLine` | firmwareLearning/cpu_isa.c:455-486 | in place, the miss path: SHARED from a snooped copy, EXCLUSIVE from memory |
| `Multicores.Multicore.CacheWriteDirect` | firmwareLearning/cpu_isa.c:494-523 | in place, the transition WriteDirect |
| `Multicores.Multicore.StoreBufferPush` | firmwareLearning/cpu_isa.c:314-334 | in place, the push into a core's own buffer; dropped when full |
| `Multicores.Multicore.DrainStoreBuffer` | firmwareLearning/cpu_isa.c:336-351 | in place, one drained store |
| `Multicores.Multicore.FlushStoreBuffer` | firmwareLearning/cpu_isa.c:353-358 | in place, draining until the buffer is empty; terminates |
| `Multicores.Multicore.StepOnBus` | firmwareLearning/cpu_isa.c:599-845 | in place, the micro-ops that fetch, push a store, or take or leave the bus lock |
| `Multicores.Multicore.Step` | firmwareLearning/cpu_isa.c:578-845 | in place, one micro-op of one core equals the transition all lemmas are about |
| `BitScan.BuildDeBruijnTable` | BLUE_KERNEL/BlueKernel_lvl3.c:15-21 | after the loop every slot holds the position of the bit that hashes to it |
| `BitScan.FindsHighestIff` | BLUE_KERNEL/BlueKernel_lvl3.c:433-446 | the scan answers -1 for zero, and for any other word the highest set bit exactly when bit 31 is clear |
| `BitScan.Bit31Wraps` | BLUE_KERNEL/BlueKernel_lvl3.c:443-445 | with bit 31 set the increment wraps and the scan answers 0 |
| `BitScan.SetOneBit` | BLUE_KERNEL/BlueKernel_lvl3.c:360-379 | setting or clearing bit p changes bit p and no other |
| `ReadyTables.ScanStepKeeps` | BLUE_KERNEL/BlueKernel_lvl3.c:370-469 | after a turn of PickNextThread's loop the bitmap still describes the queues, of which one at most has lost its head, the thread taken; bit 31 included |
| `ReadyTables.ScanStepStuckIff` | BLUE_KERNEL/BlueKernel_lvl3.c:461-469 | a turn of PickNextThread's loop takes the head of the highest queue, and makes no progress exactly when bit 31 is set and queue 0 is empty |
| `ReadyQueues.ReadyQueue.Enqueue` | BLUE_KERNEL/BlueKernel_lvl3.c:350-363 | the ring gains a thread at its tail |
| `ReadyQueues.ReadyQueue.Dequeue` | BLUE_KERNEL/BlueKernel_lvl3.c:370-378 | the ring gives up its longest waiting thread, or nothing when empty |
| `ReadyQueues.ReadyQueue.Remove` | BLUE_KERNEL/BlueKernel_lvl3.c:392-414 | the ring loses one given thread wherever it is, the others keep their order |
| `ReadyQueues.ReadyQueue.CloseGap` | BLUE_KERNEL/BlueKernel_lvl3.c:400-405 | every thread behind the gap moves one place forward |
| `ReadyTables.ReadyTable.Enqueue` | BLUE_KERNEL/BlueKernel_lvl3.c:350-363 | queue p gains a thread and bit p agrees with queue p being non-empty, as for every other queue |
| `ReadyTables.ReadyTable.Dequeue` | BLUE_KERNEL/BlueKernel_lvl3.c:370-384 | queue p loses its head and the bit is cleared exactly when the queue becomes empty |
| `ReadyTables.ReadyTable.Remove` | BLUE_KERNEL/BlueKernel_lvl3.c:392-419 | the thread leaves queue p, found exactly if it was there, and bitmap and queues still agree |
| `ReadyTables.ReadyTable.FindHighest` | BLUE_KERNEL/BlueKernel_lvl3.c:448-452 | the bitmap search gives the highest non-empty queue of all thirty-two, or none |
| `QueueInvariant.RoomFor` | BLUE_KERNEL/BlueKernel_lvl3.c:353-354 | with at most sixteen threads a queue that does not hold a thread has room for it: "Ready queue overflow" cannot fire |
| `QueueInvariant.PickIsHighest` | BLUE_KERNEL/BlueKernel_lvl3.c:461-469 | PickNextThread returns the longest queued live thread of the highest priority that has one and removes exactly the terminated threads before it; with none left it returns idle |
| `QueueInvariant.RaisedReady` | BLUE_KERNEL/BlueKernel_lvl3.c:392-430 | a READY thread that is boosted is in its old queue, leaves it in order, and joins the tail of its new one, which has room |
| `Scheduling.PickOutranks` | BLUE_KERNEL/BlueKernel_lvl3.c:461-469 | no READY thread other than idle outranks the pick |
| `Scheduling.PickedIff` | BLUE_KERNEL/BlueKernel_lvl3.c:461-469 | the thread PickNextThread will return, read off the queues beforehand: the first live thread of the highest priority that has one, or idle when there is none |
| `Scheduling.ScheduleKeepsIff` | BLUE_KERNEL/BlueKernel_lvl3.c:474-498 | Schedule keeps the dispatch invariant exactly unless the current thread, other than idle, is the first in line: the early return then drops it |
| `Scheduling.ScheduleRunsHighestIff` | BLUE_KERNEL/BlueKernel_lvl3.c:474-498 | whoever runs afterwards outranks every runnable thread exactly when the thread switched from did not outrank the pick |
| `Scheduling.AgreesWithLinearScanIff` | BLUE_KERNEL/BlueKernel_lvl2.c:299-313 | the bitmap dispatcher picks a thread of the priority the linear scan picks, unless a queued idle thread outranks every other READY thread, and exactly then not |
| `Scheduling.TimerKeeps` | BLUE_KERNEL/BlueKernel_lvl3.c:526-546 | quantum expiry keeps the dispatch invariant |
| `Scheduling.CreateKeeps` | BLUE_KERNEL/BlueKernel_lvl3.c:279-299 | thread creation keeps the dispatch invariant |
| `Kernels.BoostFrame` | BLUE_KERNEL/BlueKernel_lvl3.c:690-706 | a boost changes priorities and queues only, never lowers a priority, and raises threads to the new priority only |
| `BoostChain.BoostFollowsChain` | BLUE_KERNEL/BlueKernel_lvl3.c:690-706 | for every wait-for graph the boost raises exactly the threads of the chain; its READY members end at the tail of the new queue in chain order; every other queue keeps its order |
| `Kernels.BestWaiter` | BLUE_KERNEL/BlueKernel_lvl3.c:613-623 | the position of the first waiter of highest priority: none outranks it and those before it are strictly below |
| `Inheritance.BoostKeeps` | BLUE_KERNEL/BlueKernel_lvl3.c:690-706 | the boost keeps the dispatch invariant and leaves no waiter above its owner, cyclic graphs included; it terminates by the number of threads below the new priority |
| `Inheritance.BlockKeeps` | BLUE_KERNEL/BlueKernel_lvl3.c:606-611 | blocking keeps every invariant and the wait queue has room: "WAIT QUEUE OVERFLOW" cannot fire |
| `Inheritance.AcquireKeeps` | BLUE_KERNEL/BlueKernel_lvl3.c:724-743 | AcquireMutex keeps every invariant; nobody waits for an owner of lower priority |
| `Inheritance.HandOffOrder` | BLUE_KERNEL/BlueKernel_lvl3.c:613-630 | the hand-off picks a waiter that no remaining waiter outranks |
| `Inheritance.ReleaseKeepsShape` | BLUE_KERNEL/BlueKernel_lvl3.c:768-797 | ReleaseMutex keeps queues, wait queues and ownership in order whatever else the releaser owns |
| `Inheritance.ReleaseKeepsIff` | BLUE_KERNEL/BlueKernel_lvl3.c:751-797 | ReleaseMutex leaves no waiter above its owner exactly when the releaser owns no other mutex with a waiter above its base priority |
| `Inheritance.TwoMutexesInvert` | BLUE_KERNEL/BlueKernel_lvl3.c:751-775 | a concrete owner of two mutexes whose release leaves a waiter above its owner |
| `Inheritance.DetectionBlamesNoWaiter` | BLUE_KERNEL/BlueKernel_lvl3.c:874-900 | DetectPriorityInversion never names a thread that waits on the mutex it checks |
| `Inheritance.MarkTerminatedIff` | BLUE_KERNEL/BlueKernel_lvl3.c:815-818 | marking a thread TERMINATED keeps every invariant exactly when it is in no wait queue |
| `DispatcherRuns.ScheduleKeepsAllIff` | BLUE_KERNEL/BlueKernel_lvl3.c:474-498 | Schedule keeps the whole kernel invariant exactly unless the current thread is first in line (for idle: and owns a mutex), or nobody live is queued and a switch would run an idle thread that waits |
| `DispatcherRuns.TerminateKeeps` | BLUE_KERNEL/BlueKernel_lvl3.c:809-819 | TerminateThread keeps the whole kernel invariant |
| `DispatcherRuns.WaitKeeps` | BLUE_KERNEL/BlueKernel_lvl3.c:836-846 | WaitEvent keeps the whole kernel invariant |
| `DispatcherRuns.SignalKeeps` | BLUE_KERNEL/BlueKernel_lvl3.c:848-872 | SignalEvent and WakeOne keep the whole kernel invariant |
| `DispatcherRuns.ApplyKeeps` | BLUE_KERNEL/BlueKernel_lvl3.c:279-872 | each dispatcher operation keeps the kernel invariant on its domain; the domains of Schedule, ReleaseMutex and marking TERMINATED are the exact ones |
| `DispatcherRuns.RunKeeps` | BLUE_KERNEL/BlueKernel_lvl3.c:301-872 | over every run: each thread at most once over all queues and only at its own priority, every READY thread queued, at most one RUNNING thread and it is the current one, no waiter above its owner |
| `DispatcherRuns.BootedKeeps` | BLUE_KERNEL/BlueKernel_lvl3.c:335-342 | the kernel after InitDispatcher and the creation of the idle thread satisfies the invariant |
| `OrderlyRuns.BootedOrderly` | BLUE_KERNEL/BlueKernel_lvl3.c:335-342 | the booted kernel satisfies what those runs keep: idle waits nowhere and the current thread is not READY |
| `OrderlyRuns.OrderlyKeeps` | BLUE_KERNEL/BlueKernel_lvl3.c:279-872 | while nobody signals the thread that is still current and idle does not block, every operation keeps the invariant and Schedule is inside its domain whenever it is called |
| `OrderlyRuns.OrderlyRunKeeps` | BLUE_KERNEL/BlueKernel_lvl3.c:279-872 | over every run of such calls Schedule may be called at any point; the kernel invariant holds at the end |
| `OrderlyRuns.WorkerLost` | BLUE_KERNEL/BlueKernel_lvl3.c:474-498 | a concrete run from boot in which a deferred call signals the thread that has just blocked: every call is allowed, and the next Schedule leaves that thread READY and in no queue |
| `Dispatchers.Dispatcher.ReadyThread` | BLUE_KERNEL/BlueKernel_lvl3.c:350-363 | in place, the thread joins the queue of its priority |
| `Dispatchers.Dispatcher.ReinsertReadyThread` | BLUE_KERNEL/BlueKernel_lvl3.c:421-430 | in place, the move between queues; "Thread not found during reinsert" cannot fire |
| `Dispatchers.Dispatcher.PickNextThread` | BLUE_KERNEL/BlueKernel_lvl3.c:461-469 | in place, the loop computes PickNext and terminates |
| `Dispatchers.Dispatcher.Schedule` | BLUE_KERNEL/BlueKernel_lvl3.c:474-498 | in place, equals the operation Schedule; no queue overflows |
| `Dispatchers.Dispatcher.CheckPreemption` | BLUE_KERNEL/BlueKernel_lvl3.c:510-524 | in place, requests a reschedule exactly when the new thread outranks the current one |
| `Dispatchers.Dispatcher.TimerDpc` | BLUE_KERNEL/BlueKernel_lvl3.c:526-546 | in place, equals the operation TimerDpc |
| `Dispatchers.Dispatcher.CreateThread` | BLUE_KERNEL/BlueKernel_lvl3.c:279-299 | in place, equals the operation Created; the new thread's queue has room |
| `Dispatchers.Dispatcher.DequeueHighestPriority` | BLUE_KERNEL/BlueKernel_lvl3.c:613-630 | the search loop finds the first waiter of highest priority and the shift loop closes the gap |
| `Dispatchers.Dispatcher.BoostPriorityChain` | BLUE_KERNEL/BlueKernel_lvl3.c:690-706 | in place, equals the recursive boost; terminates on cyclic wait-for graphs |
| `Dispatchers.Dispatcher.AcquireMutex` | BLUE_KERNEL/BlueKernel_lvl3.c:724-743 | in place, equals the operation Acquired; the wait queue has room |
| `Dispatchers.Dispatcher.BlockOnMutex` | BLUE_KERNEL/BlueKernel_lvl3.c:669-681 | in place, the current thread is BLOCKED at the tail of the wait queue |
| `Dispatchers.Dispatcher.ReleaseMutex` | BLUE_KERNEL/BlueKernel_lvl3.c:768-797 | in place, equals the operation Released |
| `Dispatchers.Dispatcher.HandOff` | BLUE_KERNEL/BlueKernel_lvl3.c:788-796 | in place, ownership passes to the best waiter, which becomes READY |
| `Dispatchers.Dispatcher.TerminateThread` | BLUE_KERNEL/BlueKernel_lvl3.c:809-819 | in place, releases the recorded mutex, then TERMINATED |
| `Dispatchers.Dispatcher.WaitEvent` | BLUE_KERNEL/BlueKernel_lvl3.c:836-846 | in place, consumes the signal or blocks |
| `Dispatchers.Dispatcher.WakeOne` | BLUE_KERNEL/BlueKernel_lvl3.c:848-860 | in place, the best waiter becomes READY; its queue has room |
| `Dispatchers.Dispatcher.SignalEvent` | BLUE_KERNEL/BlueKernel_lvl3.c:862-872 | in place, wakes one waiter or remembers the signal |
| `Dispatchers.Dispatcher.DetectPriorityInversion` | BLUE_KERNEL/BlueKernel_lvl3.c:874-900 | the two loops return the first thread the check would name |
| `Dispatchers.Dispatcher.LinearScan` | BLUE_KERNEL/BlueKernel_lvl2.c:299-313 | the loop of the level-2 dispatcher returns the first READY thread of highest priority other than idle |
| `DispatcherEffects.SignalOutcome` | BLUE_KERNEL/BlueKernel_lvl3.c:848-872 | SignalEvent remembers the signal when nobody waits; otherwise the first waiter of highest priority leaves the wait queue and stands READY at the end of its ready queue. A reschedule is requested exactly if it was or a thread that has just become READY outranks the current one |
| `DispatcherEffects.WaitOutcome` | BLUE_KERNEL/BlueKernel_lvl3.c:836-846 | WaitEvent consumes a signal; otherwise the caller is BLOCKED at the end of the wait queue and a reschedule is requested |
| `DispatcherEffects.AcquireFreeOutcome` | BLUE_KERNEL/BlueKernel_lvl3.c:724-731 | the caller owns the mutex and nothing else changes |
| `DispatcherEffects.AcquireHeldOutcome` | BLUE_KERNEL/BlueKernel_lvl3.c:732-743 | the caller is BLOCKED at the end of the mutex's wait queue, its owner is at least at the caller's priority, a reschedule is requested, and no other thread changes but upwards in priority |
| `DispatcherEffects.ReleaseFreeOutcome` | BLUE_KERNEL/BlueKernel_lvl3.c:768-787 | with nobody waiting the mutex is free and the releaser back at its base priority |
| `DispatcherEffects.ReleaseHandsOver` | BLUE_KERNEL/BlueKernel_lvl3.c:768-797 | the first waiter of highest priority owns the mutex and stands READY at the end of its queue; the releaser is back at its base priority, and a reschedule is requested exactly if it was or the new owner outranks it |
| `DispatcherEffects.CreateOutcome` | BLUE_KERNEL/BlueKernel_lvl3.c:279-299 | the new thread is READY with a full quantum at the end of its queue, and a reschedule is requested exactly if it was or it outranks the current thread |
| `DispatcherEffects.TimerOutcome` | BLUE_KERNEL/BlueKernel_lvl3.c:526-546 | one tick less; at the last the quantum is three again, the thread is READY at the end of its queue, no thread is current and a reschedule is requested |
| `DispatcherEffects.TerminateOutcome` | BLUE_KERNEL/BlueKernel_lvl3.c:809-819 | only the thread's state changes, and a reschedule is requested exactly if it was or the thread was current |
| `DispatcherEffects.TerminateOwnerOutcome` | BLUE_KERNEL/BlueKernel_lvl3.c:809-819 | a current thread that owns a mutex releases it as ReleaseMutex does and then terminates |
| `DispatcherEffects.ScheduleOutcome` | BLUE_KERNEL/BlueKernel_lvl3.c:474-498 | below DISPATCH_LEVEL the pick runs and a thread that was RUNNING stands READY at the end of its queue; at or above it nothing happens |
| `DispatcherEffects.DetectionOutcome` | BLUE_KERNEL/BlueKernel_lvl3.c:874-900 | DetectPriorityInversion names the first thread BLOCKED above the owner while another above the owner can run, and nobody exactly when there is none |
| `References.FreedIffUnreferenced` | BLUE_KERNEL/BlueKernel_lvl3.c:549-559 | an object's counter is zero exactly when no creator, handle or borrower holds it and, for a mutex, no thread is in its wait queue |
| `References.InsertConserves` | BLUE_KERNEL/BlueKernel_lvl3.c:561-571 | inserting a handle keeps counter equal to references |
| `References.CloseConserves` | BLUE_KERNEL/BlueKernel_lvl3.c:585-595 | closing a handle keeps counter equal to references, and the object named was live |
| `References.DestroyConserves` | BLUE_KERNEL/BlueKernel_lvl3.c:799-807 | destroying a process keeps counter equal to references |
| `References.DestroyEffect` | BLUE_KERNEL/BlueKernel_lvl3.c:799-807 | destroying a process empties its own handle table and touches no other |
| `References.WaitersChange` | BLUE_KERNEL/BlueKernel_lvl3.c:724-797 | the dispatcher lengthens a mutex's wait queue by one exactly in the blocking branch of AcquireMutex, and shortens it by one exactly where ReleaseMutex or TerminateThread hands over |
| `References.DispatchConserves` | BLUE_KERNEL/BlueKernel_lvl3.c:741-791 | every operation of the dispatcher keeps each counter equal to creator, handles, borrowers and threads in the mutex's own wait queue |
| `References.HandOffSurvivesIff` | BLUE_KERNEL/BlueKernel_lvl3.c:787-791 | when ReleaseMutex, called directly or by TerminateThread, hands over, the mutex survives exactly if a creator, handle, borrower or second waiter refers to it |
| `References.RunHandsOverLive` | BLUE_KERNEL/BlueKernel_lvl3.c:768-819 | over every interleaving of dispatcher and handle operations, no hand-off frees a mutex to which its creator, a handle or a caller that looked it up still refers |
| `References.CreatorKeepsAlive` | BLUE_KERNEL/BlueKernel_lvl3.c:549-872 | an object whose creator never drops its reference is live at the end of every run, whatever processes and dispatcher do |
| `References.WaitedOnIsLive` | BLUE_KERNEL/BlueKernel_lvl3.c:724-797 | a mutex with a thread in its wait queue is live, and so is the mutex any thread records as the one it waits for |
| `References.ApplyKeeps` | BLUE_KERNEL/BlueKernel_lvl3.c:549-872 | each operation of dispatcher, handle tables or object creation keeps exact counters and the kernel invariant together |
| `References.RunConserves` | BLUE_KERNEL/BlueKernel_lvl3.c:549-872 | over every interleaving of dispatcher and handle operations counters are exact, the kernel invariant holds, and a freed object is never counted again |
| `References.StartedKeeps` | BLUE_KERNEL/BlueKernel_lvl3.c:335-342 | the booted kernel with its events and empty handle tables satisfies both |
| `ObjectManagers.ObjectManager.CreateMutexObject` | BLUE_KERNEL/BlueKernel_lvl3.c:643-657 | in place, equals CreatedMutex; a new mutex starts with its creator's reference |
| `ObjectManagers.ObjectManager.InitEvent` | BLUE_KERNEL/BlueKernel_lvl3.c:829-834 | in place, equals CreatedEvent |
| `ObjectManagers.ObjectManager.Dereference` | BLUE_KERNEL/BlueKernel_lvl3.c:553-559 | in place, drops a reference and reports exactly whether the object is freed |
| `ObjectManagers.ObjectManager.InsertHandle` | BLUE_KERNEL/BlueKernel_lvl3.c:561-571 | the loop finds the first empty handle and counts the new reference |
| `ObjectManagers.ObjectManager.ReferenceByHandle` | BLUE_KERNEL/BlueKernel_lvl3.c:573-583 | a lookup returns the named object, which is live, and counts the reference |
| `ObjectManagers.ObjectManager.CloseHandle` | BLUE_KERNEL/BlueKernel_lvl3.c:585-595 | the handle is cleared and its reference dropped |
| `ObjectManagers.ObjectManager.DestroyProcess` | BLUE_KERNEL/BlueKernel_lvl3.c:799-807 | the loop closes every handle of the process |
| `ObjectManagers.ObjectManager.AcquireMutex` | BLUE_KERNEL/BlueKernel_lvl3.c:724-743 | in place, a caller that blocks takes a reference; a mutex waited on is live |
| `ObjectManagers.ObjectManager.ReleaseMutex` | BLUE_KERNEL/BlueKernel_lvl3.c:768-797 | in place, the hand-off drops the woken waiter's reference; a mutex still waited on is live |
| `ObjectManagers.ObjectManager.TerminateThread` | BLUE_KERNEL/BlueKernel_lvl3.c:809-819 | in place, termination releases the recorded mutex with its reference |
| `ReferenceEffects.CreateMutexOutcome` | BLUE_KERNEL/BlueKernel_lvl3.c:643-657 | one more object, counted once, with a free mutex that nobody waits for |
| `ReferenceEffects.CreateEventOutcome` | BLUE_KERNEL/BlueKernel_lvl3.c:829-834 | one more object, counted once, with an unsignaled event that nobody waits for |
| `ReferenceEffects.InsertOutcome` | BLUE_KERNEL/BlueKernel_lvl3.c:561-571 | the lowest empty handle of the process names the object, which is counted once more |
| `ReferenceEffects.FullIff` | BLUE_KERNEL/BlueKernel_lvl3.c:561-571 | an insertion fails exactly when no handle of the process is empty |
| `ReferenceEffects.LookupOutcome` | BLUE_KERNEL/BlueKernel_lvl3.c:573-583 | a lookup counts the object named once more and nothing else changes; an empty or invalid handle changes nothing |
| `ReferenceEffects.CloseOutcome` | BLUE_KERNEL/BlueKernel_lvl3.c:585-595 | the handle is empty and the object counted once less; an empty or invalid handle changes nothing |
| `ReferenceEffects.DereferenceOutcome` | BLUE_KERNEL/BlueKernel_lvl3.c:553-559 | a reference given back, a borrower's or the creator's, counts the object once less |
| `ReferenceEffects.BlockOutcome` | BLUE_KERNEL/BlueKernel_lvl3.c:724-743 | AcquireMutex counts the mutex once more exactly when it is taken |
| `ReferenceEffects.HandOffOutcome` | BLUE_KERNEL/BlueKernel_lvl3.c:768-797 | a hand-off counts the mutex once less |
| `ReferenceEffects.BorrowKeepsAlive` | BLUE_KERNEL/BlueKernel_lvl3.c:549-872 | an object whose looked-up reference is never given back is live at the end of every run |
| `ReferenceEffects.LookupKeepsAlive` | BLUE_KERNEL/BlueKernel_lvl3.c:549-872 | an object looked up by handle is live at the end of every run that does not give the reference back, whatever handles are closed, processes destroyed and creators gone |
| `ReferenceEffects.HandleKeepsAlive` | BLUE_KERNEL/BlueKernel_lvl3.c:549-872 | a handle that is not closed, of a process that is not destroyed, names the same live object at the end of every run |
| `Irql.UnmaskedPushes` | BLUE_KERNEL/BlueKernel_lvl3.c:104-111 | a trigger that is not masked never overflows the IRQL stack and always raises the level; the stack stays strictly increasing |
| `Irql.LevelsIff` | BLUE_KERNEL/BlueKernel_lvl3.c:149-158 | the routine trees considered are all those whose triggers, at any depth, are at most MACHINE_CHECK |
| `Irql.ServedRestores` | BLUE_KERNEL/BlueKernel_lvl3.c:117-158 | every service routine, with any tree of nested triggers, returns with the stack and level it started with |
| `Irql.ServedConserves` | BLUE_KERNEL/BlueKernel_lvl3.c:80-140 | every DPC queued runs at most once, in the order queued, at DISPATCH_LEVEL, and is waiting until it has run |
| `Irql.ServedDefers` | BLUE_KERNEL/BlueKernel_lvl3.c:90-140 | at or above DISPATCH_LEVEL nothing runs: what the routine tree queues is appended and left waiting |
| `Irql.DeviceInterruptRunsAll` | BLUE_KERNEL/BlueKernel_lvl3.c:117-158 | an interrupt above DISPATCH_LEVEL taken below it runs every DPC its routine tree queued, once, in order, at DISPATCH_LEVEL, after the outermost routine |
| `Irql.DrainedIff` | BLUE_KERNEL/BlueKernel_lvl3.c:135-139 | an interrupt at or above DISPATCH_LEVEL leaves no DPC waiting exactly when it is above it or there was none |
| `Irql.Cpu.QueueDpc` | BLUE_KERNEL/BlueKernel_lvl3.c:80-88 | the ring gains a DPC |
| `Irql.Cpu.DrainDpcQueue` | BLUE_KERNEL/BlueKernel_lvl3.c:90-101 | the loop runs every waiting DPC in order at DISPATCH_LEVEL, and nothing at any other level |
| `Irql.Cpu.PushIrql` | BLUE_KERNEL/BlueKernel_lvl3.c:104-115 | in place, equals Pushed |
| `Irql.Cpu.PopIrql` | BLUE_KERNEL/BlueKernel_lvl3.c:117-140 | in place, equals Popped, drain included |
| `Irql.Cpu.TriggerInterrupt` | BLUE_KERNEL/BlueKernel_lvl3.c:149-158 | in place, equals Triggered for any routine tree; no bugcheck fires while the ring has room for what it queues |
| `ConfigSpace.PciDevice.ConfigRead` | B_Kernel/bus/pci_logic.c:46-74 | in place, equals Read: a mask in discovery mode ends discovery |
| `ConfigSpace.PciDevice.ConfigWrite` | B_Kernel/bus/pci_logic.c:76-225 | in place, equals Write: command register, discovery, size masking, plain registers |
| `ConfigSpace.PciDevice.ClearDiscovery` | B_Kernel/hw/pci_sim.c:362-372 | the loop clears discovery mode and all masks |
| `ConfigSpace.PciDevice.StartDiscovery` | B_Kernel/bus/pci_logic.c:154-185 | in place, the masks a write of all ones prepares |
| `ConfigSpace.PciDevice.GetBarInfo` | B_Kernel/bus/pci_logic.c:227-310 | in place, the probe sequence equals Probe |
| `ConfigSpace.PciDevice.SetBarAddress` | B_Kernel/bus/pci_logic.c:323-347 | in place, equals Assigned |
| `Probing.EvenBarRoundTrip` | B_Kernel/bus/pci_logic.c:227-310 | an even-numbered 32-bit or I/O BAR is reported with its base and kind, the function is left as found, and the size is right exactly for I/O BARs and memory BARs of at least sixteen bytes |
| `Probing.OddBarRightIff` | B_Kernel/bus/pci_logic.c:52-64 | an odd-numbered BAR of its own leaves the function as found; its size is right exactly when the BAR ends at 4 GB and it is not taken for a high half, and a memory BAR behind an I/O BAR with address bit 2 set is taken for one and reported absent |
| `Probing.WideBarRoundTripIff` | B_Kernel/bus/pci_logic.c:154-302 | a 64-bit BAR at an even number is reported right and the function left as found exactly when its high register is even |
| `Probing.OddWideBarRightIff` | B_Kernel/bus/pci_logic.c:46-302 | a 64-bit BAR at an odd number leaves the function as found and is reported right exactly when it ends at 2^64 and is not taken for a high half |
| `Probing.AssignedBaseIff` | B_Kernel/bus/pci_logic.c:323-347 | assigning an aligned address and probing gives it back, for an I/O BAR exactly when bits 2 and 3 agree with the register before |
| `Probing.AssignedWideIff` | B_Kernel/bus/pci_logic.c:333-340 | an aligned address is assigned to a 64-bit BAR exactly when its high half is not all ones |
| `RegisterEffects.CommandWrite` | B_Kernel/bus/pci_logic.c:90-112 | a write to the command register sets bit k to the value's for the bits the function implements and leaves every other: bits 0 to 2 always, 4, 6 and 8 on bridges, 4 for classes 1 to 3, 5 for class 3 |
| `RegisterEffects.WriteElsewhere` | B_Kernel/bus/pci_logic.c:76-225 | no configuration write reaches another register, and one outside command and BAR registers stores the value |
| `RegisterEffects.ReadElsewhere` | B_Kernel/bus/pci_logic.c:46-74 | a read outside the BAR registers answers the register, in discovery mode too, and does not end it |
| `RegisterEffects.FlagNumbers` | B_Kernel/bus/pci_logic.c:227-250 | a BAR register is I/O exactly when it is odd, and 64-bit exactly when its bits 1 and 2 hold 2 |
| `RegisterEffects.ProbedNumbers` | B_Kernel/bus/pci_logic.c:227-310 | in numbers, probing a 32-bit BAR reports I/O exactly for an odd register, and its base is the register without its last two bits for I/O, four for memory |
| `RegisterEffects.ProbedWideNumbers` | B_Kernel/bus/pci_logic.c:227-310 | in numbers, probing a 64-bit BAR reports 2^32 times the high register plus the low one without its last four bits, and the size |
| `RegisterEffects.AbsentBar` | B_Kernel/bus/pci_logic.c:227-310 | a BAR without a size is left as it was and reported with the base and kind of its register; all ones is no BAR |
| `RegisterEffects.LastWideBar` | B_Kernel/bus/pci_logic.c:227-310 | BAR5 has no register for a high half: a 64-bit type there is reported as no BAR |
| `RegisterEffects.AssignedOddNumbers` | B_Kernel/bus/pci_logic.c:323-347 | assigning an odd-numbered BAR of its own stores, as a number, the address plus the register's flags, and changes nothing else |
| `Probing.ReportedSize` | B_Kernel/bus/pci_logic.c:303-309 | any reported size is zero or a power of two of at least four |
| `Allocation.MmioAligned` | B_Kernel/device/OS_device.c:16-20 | while the counter does not wrap, the address is the first multiple of the size at or above it and the counter moves just past |
| `MaskRounding.MaskRounds` | B_Kernel/device/OS_device.c:17 | masking with the complement of size - 1 on 64-bit words is rounding down to a multiple of size, for every power of two |
| `MaskRounding.OffsetIsRemainder` | B_Kernel/mmio/mmio_router.c:94-109 | masking with size - 1 gives the remainder of the address, for every power of two |
| `Words.Ordered` | B_Kernel/mmio/mmio_router.c:118-182 | unsigned comparison of 64-bit words is comparison of the numbers they stand for |
| `Words.Fields` | B_Kernel/mmio/mmio_router.c:118-182 | shifts and masks of whole digits, bytes and halfwords are quotients and remainders |
| `Words.ValueInjective` | B_Kernel/device/OS_device.c:16-20 | 64-bit words that stand for the same number are equal, so results on numbers carry over to words |
| `Allocation.BlocksAlignedIff` | B_Kernel/device/OS_device.c:16-44 | over the BARs of a device all memory blocks are aligned to their size, and all port blocks are exactly when there is none or the port counter was aligned before the first |
| `Allocation.Consecutive` | B_Kernel/device/OS_device.c:28-44 | BARs of a kind get consecutive blocks in order, each as large as BAR0 |
| `Allocation.AssignedDisjointIff` | B_Kernel/device/OS_device.c:28-44 | assigned BARs of a kind never overlap exactly when each one followed by another is no larger than BAR0 |
| `Allocation.AssignedTableReady` | B_Kernel/device/OS_device.c:16-44 | when every size divides that of BAR0 and the port counter is aligned, the assigned table has every BAR aligned to its own size and none overlapping |
| `AssignedRouting.AssignedRoutable` | B_Kernel/device/OS_device.c:16-44 | such tables, read as the 64-bit words the router keeps, satisfy what its range lemmas ask for, and no address lies in two BARs of one device |
| `Allocation.WithoutBar0` | B_Kernel/device/OS_device.c:28-44 | with BAR0 absent every memory BAR gets address zero and the MMIO counter is reset to zero |
| `Allocation.BarAllocator.AllocateMmioAddress` | B_Kernel/device/OS_device.c:16-20 | in place, equals AllocatedMmio |
| `Allocation.BarAllocator.AllocateIoAddress` | B_Kernel/device/OS_device.c:22-26 | in place, equals AllocatedIo |
| `Allocation.BarAllocator.AssignBarAddress` | B_Kernel/device/OS_device.c:28-44 | in place, the loop equals Assigned |
| `Routing.SameRangeIff` | B_Kernel/mmio/mmio_router.c:94-109 | the mask comparison holds exactly for addresses in [base, base + size), and the offset is the distance from the base |
| `Routing.ClaimsIffHolds` | B_Kernel/mmio/mmio_router.c:69-116 | a function claims an address exactly when one of its BARs holds it; the first such BAR is matched with offset address minus base |
| `Routing.ScanSound` | B_Kernel/mmio/mmio_router.c:187-276 | a match is the end of the first route, in table order and what a bridge forwards before its own BARs: enabled bridges whose windows admit the address, and an enabled device |
| `Routing.ScanComplete` | B_Kernel/mmio/mmio_router.c:187-276 | whenever such a route exists the walk finds a device |
| `Routing.FindIffRoute` | B_Kernel/mmio/mmio_router.c:279-300 | a device is found exactly when a route leads to a claiming one, and the match is the end of the first route |
| `Routing.FindCorrect` | B_Kernel/mmio/mmio_router.c:279-300 | the device found ends the first route and holds the address in the BAR named at offset address minus base; NULL means there is no route |
| `RoutingEffects.EnabledIff` | B_Kernel/mmio/mmio_router.c:54-67 | a function decodes I/O exactly when its command register is odd, and memory exactly when half of it, rounded down, is odd |
| `RoutingEffects.BusNumbers` | B_Kernel/mmio/mmio_router.c:239-243 | the buses behind a bridge run from the second byte of register 6, as a number, to the third |
| `RoutingEffects.MemoryIff` | B_Kernel/mmio/mmio_router.c:118-131 | the memory window is made of the megabytes from the one the low half of register 8 numbers to the one the high half numbers, and is shut when a half is zero |
| `RoutingEffects.PrefetchIff` | B_Kernel/mmio/mmio_router.c:133-163 | the prefetchable window likewise from register 9, with 10 and 11 as upper halves; the upper limit counts only when the upper base is not zero |
| `RoutingEffects.PortsIff` | B_Kernel/mmio/mmio_router.c:165-182 | the I/O window is made of the 4 KB blocks of sixteen-bit ports that the two lowest bytes of register 7 number |
| `RoutingEffects.ClaimsIff` | B_Kernel/mmio/mmio_router.c:69-116 | a function answers exactly when, in numbers, base <= address < base + size for a programmed BAR of the space; the first such BAR answers, and base plus offset is the address |
| `RoutingEffects.FindsFirst` | B_Kernel/mmio/mmio_router.c:187-300 | MmioFindDevice answers with the end of the first way from bus 0 and with nothing when there is no way; a way is stated on numbers alone: command bits, bus numbers, windows and BAR ranges |
| `RoutingEffects.FindsOnRootBus` | B_Kernel/mmio/mmio_router.c:187-300 | a function on bus 0 whose BAR holds the address makes the lookup succeed when its decoding bit is set; alone, it is found exactly then |
| `MmioRouters.MmioRouter.EndpointClaimsAddress` | B_Kernel/mmio/mmio_router.c:69-116 | the loop returns the first claiming BAR |
| `MmioRouters.MmioRouter.ScanBusForDevice` | B_Kernel/mmio/mmio_router.c:187-233 | the loop asks every device of the bus and keeps the first match; terminates |
| `MmioRouters.MmioRouter.BridgeForwardsAddress` | B_Kernel/mmio/mmio_router.c:235-276 | the loop over the subordinate buses stops at the first match; terminates |
| `MmioRouters.MmioRouter.MmioFindDevice` | B_Kernel/mmio/mmio_router.c:279-300 | equals Find |
| `MmioRouters.MmioRouter.MmioRouteRead` | B_Kernel/mmio/mmio_router.c:318-358 | equals RouteRead |
| `MmioRouters.MmioRouter.MmioRouteWrite` | B_Kernel/mmio/mmio_router.c:360-393 | in place, equals RouteWrite |
| `RoutedMemory.AlignedFits` | B_Kernel/mmio/mmio_router.c:20-25 | an aligned access no wider than its BAR never crosses the BAR's end |
| `RoutedMemory.AlignedValid` | B_Kernel/mmio/mmio_router.c:15-52 | ValidateAccess accepts a memory access exactly when a device answers and the access is aligned and of width 1, 2, 4 or 8 |
| `RoutedMemory.FoundCell` | B_Kernel/mmio/mmio_router.c:339-347 | the lookup by bus, device and function always finds the context that was matched |
| `RoutedMemory.CellInjective` | B_Kernel/mmio/mmio_router.c:318-393 | two addresses never reach the same byte of BAR memory |
| `RoutedMemory.StoreBytes` | B_Kernel/hw/pci_sim.c:420-446 | a store changes exactly the bytes it covers |
| `RoutedMemory.JoinSplit` | B_Kernel/hw/pci_sim.c:408-446 | the little-endian word of some bytes has exactly those bytes |
| `RoutedMemory.ReadIsFlat` | B_Kernel/mmio/mmio_router.c:318-358 | an aligned read is the little-endian word of the bytes it covers in one byte map, 0xFF where nothing answers; a misaligned one is all ones |
| `RoutedMemory.WriteIsFlat` | B_Kernel/mmio/mmio_router.c:360-393 | an aligned write changes in that map exactly the bytes it covers, to those of the value; a misaligned or unclaimed one changes nothing |
| `AccessEffects.AlignedIff` | B_Kernel/mmio/mmio_router.c:15-52 | an access is aligned exactly when the address, as a number, is a multiple of its width of 1, 2, 4 or 8 |
| `AccessEffects.LaneNumber` | B_Kernel/hw/pci_sim.c:408-446 | byte k of an access lies k addresses on, as numbers |
| `AccessEffects.ByteNumber` | B_Kernel/hw/pci_sim.c:420-446 | byte k of a value is digit k of its number in base 256, from the low end |
| `AccessEffects.ReadDigits` | B_Kernel/mmio/mmio_router.c:318-358 | digit k of an aligned read is the byte k addresses on, for k below the width, and zero above |
| `AccessEffects.MisalignedRead` | B_Kernel/mmio/mmio_router.c:318-358 | a misaligned read is all ones in its width and zero above |
| `AccessEffects.FreshReadsZero` | B_Kernel/hw/pci_sim.c:148-165 | BAR memory that was never written reads as zero wherever a device answers |
| `VectorScan.BuildDeBruijnTable` | BLUE_KERNEL/IRQ_KernelDeal.c:76-82 | after the loop every slot holds the position of the bit that hashes to it |
| `VectorScan.FindsLowest` | BLUE_KERNEL/IRQ_KernelDeal.c:84-93 | for every 64-bit word the scan gives its lowest set vector, or -1 when there is none |
| `VectorScan.ClearVector` | BLUE_KERNEL/IRQ_KernelDeal.c:472 | clearing a vector removes it and no other |
| `VectorScan.SetVector` | BLUE_KERNEL/IRQ_KernelDeal.c:348-368 | setting a vector adds it and no other |
| `DeviceBuffers.RingBuffer.Push` | BLUE_KERNEL/IRQ_KernelDeal.c:150-157 | the ring gains a value at its tail, or loses it when fifteen wait |
| `DeviceBuffers.RingBuffer.Pop` | BLUE_KERNEL/IRQ_KernelDeal.c:159-164 | the ring gives up its oldest value, or reports that it is empty |
| `DeviceBuffers.RingBuffer.DrainAll` | BLUE_KERNEL/IRQ_KernelDeal.c:567-572 | the loop takes every value, oldest first, and leaves the ring empty |
| `Delivery.StepEffect` | BLUE_KERNEL/IRQ_KernelDeal.c:521-532 | a CPU step leaves no vector pending and no deferred call, restores the IRQL, touches no other CPU, and empties each buffer, in order, exactly if its deferred call ran |
| `Delivery.DrainedIff` | BLUE_KERNEL/IRQ_KernelDeal.c:521-532 | a buffer is empty after a step exactly when it was before or a pending vector's first service routine drains that device |
| `Delivery.AscendingSorted` | BLUE_KERNEL/IRQ_KernelDeal.c:526-530 | the vectors of a step are served in strictly ascending order |
| `Delivery.GenerateKeeps` | BLUE_KERNEL/IRQ_KernelDeal.c:351-383 | after an event nothing is lost exactly when the device's interrupt has a target; an MSI vector of 64 or more has none |
| `Delivery.StepKeepsIff` | BLUE_KERNEL/IRQ_KernelDeal.c:521-532 | a CPU step loses nothing exactly when every waiting device whose vector that CPU takes has its deferred call run in it |
| `Delivery.StepKeeps` | BLUE_KERNEL/IRQ_KernelDeal.c:521-532 | with producers wired a CPU step keeps the no-lost-event invariant |
| `Delivery.RunKeeps` | BLUE_KERNEL/IRQ_KernelDeal.c:335-532 | over every run in which wired producers generate values, and any device interrupts, a value waiting in a buffer has its vector pending on its target CPU |
| `Delivery.WiredIff` | BLUE_KERNEL/IRQ_KernelDeal.c:335-532 | no run from the initial state loses an event exactly when each producer's vector has a target and runs a routine that drains that producer |
| `Delivery.SystemWired` | BLUE_KERNEL/IRQ_KernelDeal.c:313-333 | the four devices and registrations of DevicePool and SystemInit, whose timer only ticks, satisfy that wiring, so no run of that system, with keyboard, mouse and microphone producing, loses an event |
| `Delivery.RunConserves` | BLUE_KERNEL/IRQ_KernelDeal.c:143-164 | over every run values processed followed by values waiting are those accepted, in order, each once |
| `Delivery.RoundDrains` | BLUE_KERNEL/IRQ_KernelDeal.c:713-715 | after one step of every CPU no vector, deferred call or value waits anywhere, and what waited has been processed |
| `Delivery.TickProcesses` | BLUE_KERNEL/IRQ_KernelDeal.c:695-716 | a turn of the tick loop processes exactly the values generated in it, in order, when none generates more than its buffer holds |
| `Delivery.TicksProcess` | BLUE_KERNEL/IRQ_KernelDeal.c:695-716 | over any number of such turns every generated value is processed once and in order, and nothing is left waiting |
| `InterruptSystems.InterruptSystem.RaiseInterrupt` | BLUE_KERNEL/IRQ_KernelDeal.c:335-374 | in place, equals Raised: MSI direct, otherwise by the IOAPIC route |
| `InterruptSystems.InterruptSystem.GenerateEvent` | BLUE_KERNEL/IRQ_KernelDeal.c:376-383 | in place, equals Generated |
| `InterruptSystems.InterruptSystem.GetNextVector` | BLUE_KERNEL/IRQ_KernelDeal.c:461-475 | in place, the lowest pending vector moves into service, or -1 |
| `InterruptSystems.InterruptSystem.DispatchInterrupt` | BLUE_KERNEL/IRQ_KernelDeal.c:481-519 | in place, equals Dispatched; the IRQL is restored |
| `InterruptSystems.InterruptSystem.ProcessDpcQueue` | BLUE_KERNEL/IRQ_KernelDeal.c:422-435 | in place, the loop runs every deferred call in order at DISPATCH_LEVEL and restores the IRQL |
| `InterruptSystems.InterruptSystem.CpuStep` | BLUE_KERNEL/IRQ_KernelDeal.c:521-532 | in place, equals CpuStepped; terminates by the number of pending vectors |
| `InterruptSystems.IntervalTimer.Step` | BLUE_KERNEL/IRQ_KernelDeal.c:550-557 | in place, the counter steps and the timer interrupts when it reaches the interval |
| `InterruptEffects.MsiEvent` | BLUE_KERNEL/IRQ_KernelDeal.c:351-383 | an MSI device's own vector, if below 64, becomes pending on its own CPU; every other CPU is unchanged |
| `InterruptEffects.LineEvent` | BLUE_KERNEL/IRQ_KernelDeal.c:335-383 | a line device's vector becomes pending on the CPU of its line's route, if there is such a line; every other CPU is unchanged |
| `InterruptEffects.EventBuffers` | BLUE_KERNEL/IRQ_KernelDeal.c:150-157 | an event's value joins its own device's buffer, which holds fifteen, and no other; nothing is processed and no tick counted |
| `InterruptEffects.SystemEvents` | BLUE_KERNEL/IRQ_KernelDeal.c:313-333 | in SystemInit's system the timer leaves vector 40 pending on CPU 0, the keyboard 33 on CPU 0, the mouse 34 on CPU 1, the microphone 35 on CPU 3, and no device any other |
| `InterruptEffects.StepTicks` | BLUE_KERNEL/IRQ_KernelDeal.c:521-564 | a CPU step counts one tick for each pending vector with an entry whose first routine is the timer's |
| `InterruptEffects.TimerFires` | BLUE_KERNEL/IRQ_KernelDeal.c:550-557 | the timer interrupts in every interval-th turn |
| `InterruptEffects.SystemStarts` | BLUE_KERNEL/IRQ_KernelDeal.c:651-694 | SystemInit starts its loop with nothing pending, in service or waiting, no tick counted and every CPU at PASSIVE_LEVEL |
| `InterruptEffects.SystemRuns` | BLUE_KERNEL/IRQ_KernelDeal.c:651-718 | the whole of SystemInit's run: three ticks, the keyboard's 101 and 106, the mouse's 102 and the microphone's 103 processed by their own calls, and nothing left waiting |

## Left out

- FindCorrect: takes the cached BAR table as given; `NotifyBarChange`, which updates it on writes to a low dword, is not modelled.
- WriteIsFlat: is stated for memory BARs of at least eight bytes; `GetPciBarInfo` masks the low nibble of memory BARs and so reports none below sixteen.
- AssignedDisjointIff: compares BARs of one device in one call of `AssignBarAddress`; `DeviceCreateFromPci` calls it again after every BAR it finds, which moves the earlier ones.
- CPU: the bus signals `bus_rd`, `bus_rdx`, `snoop_addr`, `snoop_core_id` and the `dirty` flag are written and never read, and are omitted.
- Multicore: `cores` is an array that the methods update core by core; the cache and store buffer inside a core are values that are replaced, not arrays shared with anybody.
- CPU: misaligned or out-of-range program counters and data addresses, and the write-back loop at the end of `main`.
- CmpxchgIff: is stated for the register addressing the handler always uses; with an immediate address the micro-ops of `Step` use another word.
- CPU: end-to-end atomicity of LOCK_INC and CMPXCHG, and a core seeing its own unfenced stores; the store buffer provides neither.
- Dispatcher: process records and thread routines; wait queues and thread tables are sequences rather than arrays inside shared objects.
- Dispatcher: the IRQL that the dispatcher reads is set freely between operations; its stack is modelled in `Irql`.
- Dispatcher: priorities above 30 are excluded by the thread invariant; `FindsHighestIff` and `ScanStepStuckIff` say what they would do.
- References: an object's memory is not modelled, only its counter; callers are assumed to drop each reference they took once, and to name a mutex only while it is live. The owner of a mutex holds no reference to it, as in the source.
- ObjectManager: the waiter's reference is taken before the priority boost instead of after it; nothing reads the counter in between.
- Irql: DPC routines that raise the IRQL, trigger interrupts or queue further DPCs.
- PCI: configuration offsets that are not a multiple of four, and the vendor and enumeration walk.
- PCI: `PciValidateAccess` and `PciBridgeValidateForward`, a second set of checks that the router does not call.
- PCI: a BAR memory is a map from offsets to bytes rather than an allocated buffer, since offsets are 64 bits wide; allocation failure is not modelled, and the size of a BAR memory is the size in the BAR table.
- PCI: bridges whose secondary bus is not above their own, or whose subordinate bus is 255, for which the recursion or the 8-bit loop of the source need not end.
- PCI: the window registers of a bridge are read as stored; a bridge in the middle of BAR discovery would answer some of them with a mask.
- PCI: OddBarRightIff and OddWideBarRightIff take the BAR below an odd one to be at most 2 GB, as every 32-bit or I/O BAR is.
- PCI: 64-bit additions of the allocator are written as remainders modulo 2^64; AssignedTableReady takes sizes that divide that of BAR0, which for powers of two means no larger.
- PCI: accesses through I/O windows end at the match; the route functions use memory space only.
- Interrupts: an IOAPIC route with a vector of 64 or more, for which the source shifts out of range.
- Interrupts: the deferred-call list is a sequence rather than linked nodes, and every service routine reports HANDLED, as all those in the source do.
- Interrupts: MSI addresses are modelled as the CPU number they encode.
- Everywhere: printed output, memory exhaustion, and `BlueKernel_lvl1.c`, `PCI_foundation.c`, `PCI_ReFresh.c`, the drivers and the test device pools.
