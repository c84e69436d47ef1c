# Verified model of the operating system modules

Kernel Memory, the CPUs and the Kernel Scheduler of the repository, modelled in Dafny and proved to keep what
the design promises. `dafny verify dfyconfig.toml` checks everything.

## What is modelled

**Kernel Memory** lays the segments of many processes over a physical space made of several memory sticks,
finds holes by best or worst fit, compacts when no hole is large enough, and moves segments to and from the
blocks of a swap file. The abstract view is simple: each process has a list of byte strings. `StoreRuns` proves
that every run of requests refines that view, one request changing only the process it names.

- `MemorySticks`: sticks as byte buffers of their own, addressed as one flat array.
- `Segments`: hole lists, fits, compaction. `SwapBlocks`, `SwapFiles`: segments spread over blocks.
- `SegmentStore`: one function for every request; `StoreViews`, `StoreRequests`, `StoreSwap`, `StoreTables`: what
  each does to what processes read; `StoreRuns`: whole runs; `KernelMemories`: the code that loops, moves bytes
  and reassigns tables, proved equal to those functions.
- `SwapClash`: why a process with two segments loses bytes in swap, and exactly when it does not.
- `StoreMeaning`: what each request leaves of the whole store, in terms of addresses, bytes and blocks only.
- `StoreWaits`: a creation that waits for its compaction while other requests are served.

**CPUs.** `Cpu` is the instruction set and the MMU with 32-bit sums, `Processors` the instruction cycle with its
registers and flags. `Programs` gives a program its meaning without addresses, on registers and byte strings, and
proves that a CPU computes it. `Preemption` puts Kernel Memory and any number of running processes together:
eviction saves a context through the wire format, dispatch loads context and segment table through it, requests
are served in between; each program computes what it would compute alone. `CpuMeaning` and `PreemptionMeaning` say
what instructions, translation and steps are in arithmetic; `StraightPrograms` that programs without jumps are
performed in order. `StaleAddresses` is about the physical addresses that leave a CPU. `Framing` and `Contexts` are the wire format.

**Kernel Scheduler.** `SchedulerSteps` has one function for every handler and critical section, `SchedulerRuns` the
state machine with its invariant, `SchedulerSafety` the proof that every step keeps it, `SchedulerTheorems`,
`SchedulerRaces`, `SchedulerCompaction` and `SchedulerStuck` what follows, `SchedulerTimes` the suspension timeout.
`SchedulerMeaning` says what each step does, of the states before and after it and without the step functions.
`SchedulerDispatch` is the dispatch pass, `SchedulerMutexes` priority inheritance. `KernelSchedulers` is the code with
its loops, proved equal to the step functions; its `Handle` is any step of the machine. `SchedulerPreemption` joins the
scheduler's compaction to `Preemption`.

## Assumptions

- Every handler, critical section or scheduler pass is one atomic step.
- Total memory is below 2^32, so that the 32-bit sums of Kernel Memory's own addresses and sizes do not wrap
  (`kernel_memory/src/memory_manage.c:163-170`, `:219-233`).
- Segment sizes are positive (`kernel_scheduler/src/managers/memory_manager.c:24`). A pid is handed out once.
- For the CPU: `segment_max_size` plus total memory is at most 2^32. A wrapped sum of offset and size
  (`cpu/src/manage_instructions.c:833`) is then let through by the MMU but reaches no byte: the instruction has no
  effect instead of faulting. The meaning of programs says so.
- Other modules answer only what they were asked: the history of `SchedulerRuns` records what is owed.
- A syscall comes from a process that holds a CPU and has no memory request open.

## What the code does otherwise than it says

- A process that goes back to the ready queue because of a compaction goes to its front only under CMN; FIFO and
  RR append (`kernel_scheduler/src/utils.c:71`). The model follows the code.
- `evict_all_processes` skips CPUs that are already being evicted, by a single order or for another compaction, and
  does not wait for them (`kernel_scheduler/src/utils.c:336`); when another compaction in flight ends, dispatching is
  switched on again (`kernel_scheduler/src/managers/memory_manager.c:170`). `SchedulerCompaction` says exactly when all
  CPUs are clear nevertheless: no executing process on a CPU that is being evicted, and no other compaction that ends
  first. `Preemption` takes a clear CPU list at a compaction as given; `SchedulerPreemption` joins the two.
- `evict_all_processes` never clears `is_evicting` of a CPU whose process has left before the confirmation
  (`kernel_scheduler/src/utils.c:345-356`): `SchedulerStuck` proves that such a CPU is lost, and exactly when.
- `segment_create` waits for the scheduler before it compacts, and again while it compacts, and other requests are
  served meanwhile (`kernel_memory/src/memory_manage.c:141-161`), so the error it takes for impossible can occur:
  `StoreWaits` says exactly when.
- All segments of a suspended process are given the same swap blocks, and all its pieces choose holes from the same
  unchanged tables (`kernel_memory/src/memory_manage.c:524`, `:605-645`), so runs suspend processes with at most one
  segment.
- An owner can be less urgent than a process that waits for its mutex, for two reasons, each with its exact condition
  in `SchedulerTheorems`: inheritance is not transitive (`LockUrges`,
  `kernel_scheduler/src/managers/mutex_manager.c:72-83`), and a mutex that is handed over does not boost its new owner
  (`HandOverUrges`, `:139-156`).
- STDIN and STDOUT use a physical address that was translated before the process was blocked, which a compaction makes
  stale (`StaleAddresses`).

## Model

| member | source | states |
|---|---|---|
| StoreRuns.RunRefines | kernel_memory/src/memory_manage.c:98-687 | every run of create, delete, compact, hot-plug, in-segment write, suspend and resume is a run of a map from processes to lists of byte strings in which a request changes only the process it names |
| StoreRuns.RunKeepsUnnamed | kernel_memory/src/memory_manage.c:504-687 | however often a process is moved, swapped out and swapped in while others are served, its segments read the same until a request names it; in particular what was written to swap at suspension is back in memory after resumption |
| StoreRuns.ServeRefines | kernel_memory/src/memory_manage.c:98-687 | one request: what it does to the named process, exactly when it succeeds, and that nobody else notices |
| StoreRuns.ServeSucceedsIff | kernel_memory/src/memory_manage.c:98-687 | success of every request in terms of what is free: bytes in total for an undisturbed creation, bytes in a row where nothing is compacted, swap blocks for a suspension |
| StoreRuns.BootSound | kernel_memory/src/main.c:47-124 | the state before any request satisfies the invariant |
| StoreRuns.RunSound | kernel_memory/src/memory_manage.c:98-687 | segments stay disjoint and inside memory, swap blocks unshared, in every reachable state |
| StoreRuns.ServeSound | kernel_memory/src/memory_manage.c:98-687 | every request keeps that invariant |
| StoreRuns.DeleteOkIff | kernel_memory/src/memory_manage.c:338-378 | deletion succeeds exactly when the process has a segment of that id |
| StoreMeaning.ServeMeans | kernel_memory/src/memory_manage.c:98-687 | what each request leaves of the whole store, told by free addresses, bytes, blocks and tables before and after: every field it changes, and that the rest is unchanged |
| Segments.HolesExact | kernel_memory/src/memory_manage.c:17-60 | the hole list is exactly the maximal free intervals, in address order; hole sizes and segment sizes add up to all memory |
| Segments.HolesUnique | kernel_memory/src/memory_manage.c:17-60 | no other list describes the free memory |
| Segments.Choose | kernel_memory/src/memory_manage.c:62-92 | best fit and worst fit choose a hole that fits and that no fitting hole beats, the first of equals, and fail only if nothing fits |
| Segments.CompactionExact | kernel_memory/src/memory_manage.c:98-139 | segments slide in order to a gap-free prefix from address 0, with their owners, ids, sizes and bytes even where source and target overlap; at most one hole is left |
| StoreMeaning.ChosenIsPicked | kernel_memory/src/memory_manage.c:62-92 | the hole taken is the maximal free interval that holds the size and is smaller (best fit) or larger (worst fit) than every other that does, or the lowest of equal ones |
| StoreMeaning.PlaceMeans | kernel_memory/src/memory_manage.c:182-217 | after a placement the new segment begins at that interval and stands last in the table, and nothing else changed; without room or process nothing changes at all |
| StoreMeaning.BeginMeans | kernel_memory/src/memory_manage.c:163-181 | the same for the code up to the wait, which changes nothing when it refuses or waits |
| StoreMeaning.CreateMeans | kernel_memory/src/memory_manage.c:163-217 | the same for an undisturbed creation: in the memory as it is, or, only if no interval holds the size, in the compacted one |
| StoreMeaning.CompactedPick | kernel_memory/src/memory_manage.c:182-193 | there the segment lies right behind all others |
| StoreMeaning.DeleteMeans | kernel_memory/src/memory_manage.c:338-378 | the first listed segment with that owner and id is gone and every other one stands where it stood |
| StoreRequests.RoomExact | kernel_memory/src/memory_manage.c:62-92 | a hole is found exactly when enough bytes in a row are free |
| StoreRequests.BeginExact | kernel_memory/src/memory_manage.c:163-181 | a request for a segment is refused exactly when too few bytes are free in total, and waits for a compaction exactly when they are free but not in a row |
| StoreRequests.PlaceSucceedsIff | kernel_memory/src/memory_manage.c:182-217 | after the wait, whatever was served meanwhile: success exactly when then enough bytes in a row are free |
| StoreRequests.PlaceCompactedIff | kernel_memory/src/memory_manage.c:182-217 | right after the compaction: exactly when enough bytes are free in total at its beginning |
| StoreRequests.CreateSucceedsIff | kernel_memory/src/memory_manage.c:163-217 | undisturbed, a known process gets its segment exactly when total free space is at least the size; fragmentation never makes it fail, the error after compaction is not reached |
| StoreWaits.WaitingCreateSucceedsIff | kernel_memory/src/memory_manage.c:141-161 | over any run of requests served around the wait and the compaction: exactly when the placement succeeds |
| StoreWaits.TakenWhileWaiting | kernel_memory/src/memory_manage.c:141-161 | a creation that ends in the error taken for impossible, because another process got the space while it waited |
| StoreWaits.ApartWhileWaiting | kernel_memory/src/memory_manage.c:141-161 | the same with enough bytes free in total: between compaction and placement they came apart again |
| StoreRequests.CompactionMakesRoom | kernel_memory/src/memory_manage.c:182-193 | after compaction a hole is found exactly when the free space suffices |
| StoreRequests.CreateGrowsView | kernel_memory/src/memory_manage.c:195-217 | a created segment is appended to its process's table with the requested id and size |
| StoreRequests.CreateKeepsViews | kernel_memory/src/memory_manage.c:163-217 | and changes no existing segment's bytes, compaction included |
| StoreRequests.DeleteKeepsViews | kernel_memory/src/memory_manage.c:338-378 | deletion drops the first segment of the id and nothing else |
| StoreRequests.PokeKeepsViews | kernel_memory/src/memory_manage.c:292-336 | a write inside a segment changes those bytes of that segment only |
| StoreSwap.SuspendKeepsViews | kernel_memory/src/memory_manage.c:504-589 | suspending a process with at most one segment keeps what everybody reads, the process itself included |
| StoreSwap.DesuspendKeepsViews | kernel_memory/src/memory_manage.c:591-687 | so does resuming it, into whatever hole |
| SwapClash.SuspensionSafeIff | kernel_memory/src/memory_manage.c:524-584 | suspension preserves every memory content if and only if the process has at most one segment, because every segment is given the same free blocks |
| SwapClash.ClashLosesBytes | kernel_memory/src/memory_manage.c:524-584 | for any process with two segments a memory content whose bytes are lost |
| SwapClash.ResumeOverlaps | kernel_memory/src/memory_manage.c:605-645 | any two resumed segments share bytes if and only if the same hole is chosen for both sizes, because all holes are chosen from the unchanged tables |
| SwapClash.ResumeWorst | kernel_memory/src/memory_manage.c:605-645 | under worst fit any two start at the same address, whatever their sizes |
| SwapClash.ResumeBest | kernel_memory/src/memory_manage.c:605-645 | under best fit two are apart exactly when some hole fits the smaller and not the larger |
| StoreSwap.SuspendSucceedsIff | kernel_memory/src/memory_manage.c:504-589 | suspension succeeds exactly when as many swap blocks are unused as the segment fills |
| StoreSwap.ResumeSucceedsIff | kernel_memory/src/memory_manage.c:591-687 | resumption succeeds exactly when enough bytes in a row are free; nothing is compacted for it |
| StoreMeaning.SuspendAnyMeans | kernel_memory/src/memory_manage.c:504-589 | for any number of segments: success exactly when for each of them as many blocks are unused as it fills; the pieces are the segments in order with the lowest unused blocks; of blocks given twice the later segment has the bytes |
| StoreMeaning.SuspendMeans | kernel_memory/src/memory_manage.c:504-589 | for at most one segment: its bytes lie in its blocks in order with zeros behind them, all other blocks are as they were, and a failure changes nothing |
| StoreMeaning.ResumeMeans | kernel_memory/src/memory_manage.c:591-687 | the piece is read back into the interval the configured fit picks and the suspended entry goes; nothing else changes |
| StoreMeaning.BlocksExact | kernel_memory/src/memory_manage.c:521-521 | the smallest number of blocks that holds the size |
| StoreMeaning.WrittenSpread | kernel_memory/src/memory_manage.c:433-459 | byte k of the i-th block is byte i times the block size plus k of the segment, or zero behind its end |
| StoreMeaning.ReadGathers | kernel_memory/src/memory_manage.c:461-502 | and is read from there |
| SwapBlocks.SwapRoundTrip | kernel_memory/src/memory_manage.c:433-502 | what is written over a list of blocks is read back, partial last block included, and other blocks are untouched |
| SwapBlocks.FreeFromExact | kernel_memory/src/memory_manage.c:398-431 | the free blocks offered are unused, distinct and the lowest |
| KernelMemories.KernelMemory.GetFreeHoles | kernel_memory/src/memory_manage.c:17-60 | the loop computes the specified hole list |
| KernelMemories.KernelMemory.BestFit | kernel_memory/src/memory_manage.c:62-72 | the loop computes the specified choice |
| KernelMemories.KernelMemory.WorstFit | kernel_memory/src/memory_manage.c:74-84 | the loop computes the specified choice |
| KernelMemories.KernelMemory.CompactMemory | kernel_memory/src/memory_manage.c:98-139 | moving segments over the sticks in place computes the specified compaction |
| KernelMemories.KernelMemory.SegmentBegin | kernel_memory/src/memory_manage.c:163-181 | the code up to the wait computes the step that BeginExact and StoreMeaning.BeginMeans pin down |
| KernelMemories.KernelMemory.SegmentPlace | kernel_memory/src/memory_manage.c:182-217 | the code after the wait computes the step that PlaceSucceedsIff and StoreMeaning.PlaceMeans pin down, place of the segment included |
| KernelMemories.KernelMemory.SegmentCreate | kernel_memory/src/memory_manage.c:163-217 | both with only the compaction in between: the step that CreateSucceedsIff, CreateKeepsViews and StoreMeaning.CreateMeans pin down, on the real sticks |
| KernelMemories.KernelMemory.SegmentDelete | kernel_memory/src/memory_manage.c:338-378 | the first segment of the id is dropped from the table, as DeleteKeepsViews requires |
| KernelMemories.KernelMemory.GetFreeSwapBlocks | kernel_memory/src/memory_manage.c:398-431 | the loops over the suspended list and the flags compute the specified blocks |
| KernelMemories.KernelMemory.ProcessSuspend | kernel_memory/src/memory_manage.c:504-589 | blocks, swap file and suspended list are those of the specified request, for any number of segments |
| KernelMemories.KernelMemory.ProcessDesuspend | kernel_memory/src/memory_manage.c:591-687 | holes, sticks and tables are those of the specified request, for any number of segments |
| KernelMemories.KernelMemory.Handle | kernel_memory/src/module_handlers/kernel_scheduler_handler.c:41-220 | any request on the real sticks, swap file and tables is one step of the simple map machine, succeeds exactly when it should, and leaves of sticks, file and tables just what StoreMeaning says |
| MemorySticks.MemoryBank.FindStick | kernel_memory/src/memory_manage.c:219-233 | an address is found in a stick exactly if it is below the total, at the matching offset |
| MemorySticks.MemoryBank.Read | kernel_memory/src/memory_manage.c:235-290 | a read over several sticks is the slice of their concatenation, or fails when it runs past the end; every chunk asked for is non-empty and within its stick |
| MemorySticks.MemoryBank.Write | kernel_memory/src/memory_manage.c:292-336 | a write succeeds exactly if it fits (or is empty) and otherwise changes only the part in range; every chunk sent is non-empty and within its stick |
| MemorySticks.MemoryBank.WriteChunk | cpu/src/manage_instructions.c:936-978 | the stick's answer to one chunk, and what the flat memory is then |
| MemorySticks.MemoryBank.Connect | kernel_memory/src/main.c:226-256 | a new stick extends memory at its end and moves nothing |
| MemorySticks.ConcatSplice | kernel_memory/src/memory_manage.c:292-336 | overwriting inside one stick is overwriting the flat memory |
| MemorySticks.StickRead | memory_stick/src/main.c:262-291 | an out-of-range read is refused, another returns the slice |
| MemorySticks.StickWrite | memory_stick/src/main.c:203-260 | an out-of-range write is refused and changes nothing |
| SwapFiles.SwapFile.ReadBlock | swap/src/main.c:96-118 | the bytes of one block of the file |
| SwapFiles.SwapFile.WriteBlock | swap/src/main.c:120-150 | one block is overwritten, every other block kept |
| SwapFiles.SwapFile.WriteSegment | kernel_memory/src/memory_manage.c:433-459 | a segment is spread over its blocks as specified |
| SwapFiles.SwapFile.ReadSegment | kernel_memory/src/memory_manage.c:461-502 | a segment is gathered from its blocks as specified |
| Framing.SerializeRoundTrip | utils/src/utils/net_utils.c:223-235 | a package is received as it was sent and the next one is left untouched |
| Framing.SerializeLayout | utils/src/utils/net_utils.c:223-235 | four bytes of operation code, four of size, lowest first, then the stream |
| Framing.FieldLayout | utils/src/utils/net_utils.c:142-149 | four bytes of length, lowest first, then the bytes |
| Framing.ListRoundTrip | utils/src/utils/net_utils.c:561-601 | decoding undoes encoding for every list of integers, the empty one included |
| Framing.Package.Add | utils/src/utils/net_utils.c:142-149 | a field is its length and its bytes |
| Framing.Package.AddList | utils/src/utils/net_utils.c:561-572 | the loop appends the encoding of the list |
| Framing.ReceiveList | utils/src/utils/net_utils.c:574-601 | the loop decodes the list |
| Contexts.CredentialsRoundTrip | utils/src/utils/net_utils.c:285-359 | decoding undoes encoding for every list of credentials, the empty one included |
| Contexts.SaveRoundTrip | kernel_memory/src/module_handlers/cpu_handler.c:16-33 | Kernel Memory reads the pid and the registers a CPU sent, consuming exactly the payload |
| Contexts.SaveLayout | cpu/src/manage_instructions.c:8-27 | which is 84 bytes long, with the pid and every register at its own offset |
| Contexts.LoadRoundTrip | cpu/src/main.c:469-501 | a CPU loads exactly the registers and the segment table of any length that Kernel Memory holds, consuming exactly the payload |
| Contexts.ContextSend | cpu/src/manage_instructions.c:8-27 | what a CPU sends |
| Contexts.ContextSendFromPcb | kernel_memory/src/module_handlers/cpu_handler.c:130-155 | what Kernel Memory sends, table loop included |
| Contexts.ContextReceive | cpu/src/main.c:469-501 | the receiving loop computes the specified decoding |
| Contexts.AddCredentials | utils/src/utils/net_utils.c:285-299 | the loop appends the encoding of the list |
| Contexts.ReceiveCredentials | utils/src/utils/net_utils.c:301-359 | the loop decodes the list |
| Programs.TranslationExact | cpu/src/manage_instructions.c:807-849 | a translation that succeeds lies inside one of the process's segments if and only if the 32-bit sum of offset and size did not wrap; if it wrapped, the range ends beyond all memory; which byte of which segment it is, CpuMeaning.TranslationArithmetic says |
| CpuMeaning.TranslationArithmetic | cpu/src/manage_instructions.c:807-849 | byte k of the first segment with an id, at the logical address id times the maximal segment size plus k, translates to its base plus k, exactly if the access ends inside the segment, 32-bit sums taken as they are |
| CpuMeaning.NoTranslation | cpu/src/manage_instructions.c:815-826 | an address whose id is in no entry faults |
| CpuMeaning.AddressParts | cpu/src/manage_instructions.c:808-809 | every address is such an id and byte, so that these two say what becomes of each |
| Programs.AddressesApart | cpu/src/manage_instructions.c:807-849 | over all processes and logical addresses, two bytes translate to the same physical byte only if process and address are the same, repeated segment ids included |
| Programs.ProcessesApart | cpu/src/manage_instructions.c:807-849 | whole accesses of different processes never meet; a range that wrapped ends beyond all memory |
| Programs.ExecuteSimulates | cpu/src/manage_instructions.c:277-560 | every instruction on physical memory does what it means on registers and byte-string segments |
| Cpu.RegistersApart | cpu/src/manage_instructions.c:208-275 | writing a register changes that register, truncated to its width, and no other |
| CpuMeaning.RegisterPlaces | cpu/src/manage_instructions.c:208-275 | reading all registers by name gives back the context: every name is its own register |
| CpuMeaning.BytesOrdered | cpu/src/manage_instructions.c:442-460 | a register lies in memory as one or four bytes, the lowest first |
| CpuMeaning.TurnMeans | cpu/src/manage_instructions.c:29-159 | what one turn does for every instruction, in arithmetic: sums and differences modulo the register, bytes loaded and stored one by one, and the program counter one further unless the instruction jumps, writes it or sets it |
| StraightPrograms.StraightLine | cpu/src/manage_instructions.c:29-159 | n turns of a program without jumps perform the n instructions from the program counter on, each once and in order, up to a fault |
| StraightPrograms.StraightInEveryRun | cpu/src/manage_instructions.c:29-159 | so they do in every run, however often the process is evicted and memory compacted between any two of them |
| Cpu.RegisterRoundTrip | cpu/src/manage_instructions.c:410-460 | what MOV_OUT stores of a register MOV_IN loads back |
| Processors.Processor.Translate | cpu/src/manage_instructions.c:807-849 | the scan of the table computes the translation that CpuMeaning.TranslationArithmetic and NoTranslation pin down, and raises the exit flag on a fault |
| Processors.Processor.MovInto | cpu/src/manage_instructions.c:410-440 | registers, flags and memory after MOV_IN |
| Processors.Processor.MovFrom | cpu/src/manage_instructions.c:442-460 | registers, flags and memory after MOV_OUT |
| Processors.Processor.Copy | cpu/src/manage_instructions.c:531-558 | registers, flags and memory after COPY_MEM |
| Processors.Processor.ExecuteInstruction | cpu/src/manage_instructions.c:277-392 | the outcome of every instruction, and that the context is sent exactly by those that stop the process |
| Processors.Processor.InstructionsCycle | cpu/src/manage_instructions.c:29-159 | the cycle performs as many turns as it made, each as CpuMeaning.TurnMeans says, up to the first interrupt, stop or end; unless the process ended, what was sent is the state at the boundary it left off |
| Preemption.RunTransparent | cpu/src/manage_instructions.c:29-159 | a program interleaved with others, evicted and dispatched at any instruction boundary, compacted, swapped and hot-plugged around computes the registers, program counter and memory of an undisturbed run with as many instructions |
| Preemption.RunIsProgram | cpu/src/manage_instructions.c:29-159 | a run in which the program also allocates, frees and is written to is for it a run of the machine without addresses, instruction by instruction and request by request |
| Preemption.OwnRequest | kernel_memory/src/memory_manage.c:163-217 | a request about the process itself changes its memory as the request says and no register |
| Preemption.BootReady | kernel_memory/src/main.c:47-124 | a system to start from |
| Preemption.FireReady | cpu/src/main.c:200-272 | the copies of the segment tables on the CPUs stay current through every step |
| Preemption.FireInvisible | kernel_memory/src/module_handlers/cpu_handler.c:15-95 | eviction, dispatch, compaction and everybody else's requests change nothing a program sees |
| Preemption.TurnKeepsViews | cpu/src/manage_instructions.c:442-558 | an instruction changes memory only inside its own process's segments |
| PreemptionMeaning.FireMeans | kernel_memory/src/module_handlers/cpu_handler.c:15-95 | what each step leaves of memory, saved contexts, loaded CPUs and ended processes: evicting saves the registers, dispatching loads them with the table as it is now, a stop saves, a fault or EXIT ends |
| SchedulerPreemption.CompactionMayRun | kernel_scheduler/src/managers/memory_manager.c:152-177 | what the scheduler's compaction theorem gives the CPUs: the compaction may run and no program notices |
| StaleAddresses.StillNames | cpu/src/manage_instructions.c:715-781 | an address translated for STDIN or STDOUT is still where its bytes are exactly when the segment has not moved |
| StaleAddresses.StillNamesServed | kernel_memory/src/memory_manage.c:163-687 | which no request about another process changes without a compaction |
| StaleAddresses.CompactionStales | kernel_memory/src/memory_manage.c:98-139 | and a compaction can: the address then lies in another process's segment |
| StoreTables.ServeUndisturbed | kernel_memory/src/memory_manage.c:163-687 | without compaction, a request about another process leaves a process's segment addresses alone |
| SchedulerSafety.StepGood | kernel_scheduler/src/utils.c:41-494 | every handler, in whatever order the other modules answer, keeps the whole invariant: lists, CPUs, suspension, waiting, ownership, priorities, grants |
| SchedulerMeaning.StepMeans | kernel_scheduler/src/utils.c:41-494 | what each handler leaves of the whole state, told by the states before and after: who changes and how, which list he leaves and where in which he then stands, which CPU becomes free, who owns and waits for which mutex; and that nobody and nothing else changes |
| SchedulerMeaning.CpusExact | kernel_scheduler/src/utils.c:256-311 | a CPU that is not being evicted is free exactly if nobody holds it: none is lost when its process ends, blocks or leaves |
| SchedulerTheorems.StartKept | kernel_scheduler/src/main.c:145-241 | the scheduler starts in a state that satisfies it |
| SchedulerTheorems.RunKept | kernel_scheduler/src/utils.c:41-494 | every state of every run satisfies it |
| SchedulerTheorems.StatesMatchLists | kernel_scheduler/src/utils.c:41-94 | ready iff once in the queue of the clamped effective priority and in no other; exec list iff executing on a CPU; executing without one implies an open memory request; block list iff blocked; suspended list only suspended |
| SchedulerTheorems.NoSharedCpu | kernel_scheduler/src/schedulers/short_term_scheduler.c:47-63 | no two processes hold one CPU; a pass hands out only CPUs that were free and not being evicted |
| SchedulerTheorems.ConfirmationTarget | kernel_scheduler/src/utils.c:256-361 | a confirmation takes the CPU from the process that held it when the order was sent, or from nobody; and exactly when the CPU becomes free again |
| SchedulerTheorems.EvictedPlace | kernel_scheduler/src/utils.c:41-73 | an evicted process goes to the front of its queue exactly when everybody is evicted under CMN, to the end otherwise; no other queue changes |
| SchedulerTheorems.MutexesSound | kernel_scheduler/src/managers/mutex_manager.c:34-168 | locked iff owned, owner and owned list agree, waiters imply locked, one mutex at a time and never an own one; grants follow arrival |
| SchedulerTheorems.InheritanceBounds | kernel_scheduler/src/managers/mutex_manager.c:72-135 | both bounds on every effective priority; a process that owns no mutex has its base priority |
| SchedulerTheorems.HandOverUrges | kernel_scheduler/src/managers/mutex_manager.c:139-156 | a new owner is at least as urgent as those left waiting if and only if it already was |
| SchedulerTheorems.NotAlwaysUrged | kernel_scheduler/src/managers/mutex_manager.c:139-156 | a state of the invariant from which an unlock leaves an owner less urgent than a waiter |
| SchedulerTheorems.LockUrges | kernel_scheduler/src/managers/mutex_manager.c:51-83 | inheritance is not transitive: if every owner was as urgent as its waiters, a process that starts to wait keeps it so if and only if the owner it boosts does not wait for an owner less urgent than it |
| SchedulerTheorems.NotTransitive | kernel_scheduler/src/managers/mutex_manager.c:72-83 | a state of the invariant in which it does |
| SchedulerRaces.RaceReadyOnce | kernel_scheduler/src/managers/memory_manager.c:76-118 | from the memory syscall itself on, its answer against an eviction: in either order, with anything in between, the process executes until the later of the two and becomes ready exactly then |
| SchedulerRaces.SyscallWaits | kernel_scheduler/src/managers/memory_manager.c:16-74 | a memory syscall leaves its process executing, on its CPU, with the request open, and changes nothing else |
| SchedulerRaces.PhaseStep | kernel_scheduler/src/managers/memory_manager.c:76-118 | what each of the two does in each phase of that race |
| SchedulerRaces.StepLeaves | kernel_scheduler/src/utils.c:41-494 | no other step touches state, CPU or open request of an executing process |
| SchedulerCompaction.EvictAllCovers | kernel_scheduler/src/utils.c:318-338 | the eviction before compaction waits for everybody if and only if no executing process is on a CPU that is already being evicted, by a single order or for another compaction |
| SchedulerCompaction.NotAlwaysCovered | kernel_scheduler/src/utils.c:318-338 | two states, one for each, from which it sends no order and waits for nobody while a process stays on its CPU |
| SchedulerCompaction.NewlyAwaited | kernel_scheduler/src/utils.c:335-338 | a call waits exactly for the CPUs it sent an order to |
| SchedulerCompaction.CompactionClear | kernel_scheduler/src/managers/memory_manager.c:152-177 | over any run from a call that waits for everybody: all on CPUs stay awaited, so that nobody is on one once its confirmations have come, if and only if no dispatch pass finds somebody ready and a CPU free |
| SchedulerCompaction.CompactionSafe | kernel_scheduler/src/managers/memory_manager.c:152-177 | so a compaction begun with nobody on an evicting CPU finds all CPUs clear, unless another compaction in flight ends first |
| SchedulerCompaction.EndOfAnother | kernel_scheduler/src/managers/memory_manager.c:170-174 | two in flight: the end of one switches dispatching on and the next pass puts a process on a CPU the other does not wait for |
| SchedulerCompaction.TwoCompactionsBreak | kernel_scheduler/src/managers/memory_manager.c:170-174 | a state of the invariant in which that happens |
| SchedulerStuck.ConfirmationSticks | kernel_scheduler/src/utils.c:340-358 | a confirmation leaves a CPU marked for good exactly when everybody was evicted and the process had left the CPU |
| SchedulerStuck.CpuLost | kernel_scheduler/src/utils.c:340-358 | a state of the invariant in which that happens |
| SchedulerStuck.StuckForGood | kernel_scheduler/src/utils.c:340-358 | over any run such a CPU stays marked, is never free and never holds a process again |
| SchedulerDispatch.PassExact | kernel_scheduler/src/schedulers/short_term_scheduler.c:17-63 | a pass dispatches, in order, exactly as many ready processes as there are free CPUs, each to the next free one |
| SchedulerDispatch.PassFair | kernel_scheduler/src/schedulers/short_term_scheduler.c:17-63 | afterwards nobody is ready or no CPU is free; nobody overtakes a more urgent or earlier process |
| SchedulerDispatch.NextExact | kernel_scheduler/src/schedulers/short_term_scheduler.c:72-94 | the next process is the head of all that is ready; the check that it is READY never fails |
| SchedulerMeaning.PassMeans | kernel_scheduler/src/schedulers/short_term_scheduler.c:15-69 | the whole state after a pass: the processes dispatched, their CPUs, the queues, and at most one order |
| SchedulerMeaning.PassPreempts | kernel_scheduler/src/schedulers/short_term_scheduler.c:26-37 | a pass orders an eviction if and only if CMN and preemption are on, somebody is still ready, no CPU is free and the least urgent executing process is less urgent than the head of the queues; the CPU is that process's, the first of equals |
| SchedulerMutexes.InheritedExact | kernel_scheduler/src/managers/mutex_manager.c:115-135 | the priority computed on release is the most urgent of the base and all waiters of the mutexes still owned |
| SchedulerMutexes.UnlockUrgency | kernel_scheduler/src/managers/mutex_manager.c:95-168 | an unlock keeps both priority bounds for everybody |
| SchedulerMutexes.LockUrgency | kernel_scheduler/src/managers/mutex_manager.c:51-83 | so does a lock that makes a process wait |
| SchedulerMeaning.LockGrants | kernel_scheduler/src/managers/mutex_manager.c:34-93 | after a lock the process still runs if and only if it owns the mutex now, which is so exactly if the mutex was free or its own; a free mutex changes hands and nothing else changes |
| SchedulerTimes.NobodySuspendedEarly | kernel_scheduler/src/schedulers/medium_term_scheduler.c:17-35 | over any run, a sweep suspends a process only if it was blocked at every moment within the suspension timeout |
| SchedulerTimes.StepTimes | kernel_scheduler/src/utils.c:41-494 | no handler changes the time since which a blocked process is blocked, and every way into the block list takes the time |
| KernelSchedulers.KernelScheduler.DispatchPass | kernel_scheduler/src/schedulers/short_term_scheduler.c:17-69 | the loop computes the pass that SchedulerMeaning.PassMeans and PassPreempts pin down |
| KernelSchedulers.KernelScheduler.GetNextProcess | kernel_scheduler/src/schedulers/short_term_scheduler.c:72-94 | the scan over the queues computes the next process |
| KernelSchedulers.KernelScheduler.GetAvailableCpu | kernel_scheduler/src/schedulers/short_term_scheduler.c:96-113 | the scan computes the first free CPU |
| KernelSchedulers.KernelScheduler.GetLowestPriority | kernel_scheduler/src/utils.c:201-214 | the scan computes the first of the least urgent |
| KernelSchedulers.KernelScheduler.SendProcessEvict | kernel_scheduler/src/utils.c:216-239 | an order is sent unless one is under way |
| KernelSchedulers.KernelScheduler.EvictAll | kernel_scheduler/src/utils.c:318-338 | the orders of an eviction of everybody, and as the CPUs to wait for exactly those newly ordered, in order |
| KernelSchedulers.KernelScheduler.BeginCompacting | kernel_scheduler/src/managers/memory_manager.c:152-158 | dispatching off, then those orders: the step that EvictAllCovers is about |
| KernelSchedulers.KernelScheduler.Handle | kernel_scheduler/src/utils.c:41-494 | every handler, on the real lists, is its step of the state machine, leaves of them what SchedulerMeaning.StepMeans says and keeps the whole invariant |
| KernelSchedulers.KernelScheduler.EvictionConfirmed | kernel_scheduler/src/utils.c:256-294 | the step that SchedulerTheorems.ConfirmationTarget and SchedulerRaces.PhaseStep are about: CPU freed, holder ready unless its own memory request is open |
| KernelSchedulers.KernelScheduler.EvictionByAllConfirmed | kernel_scheduler/src/utils.c:340-358 | the same for the eviction of everybody, in front of the queue under CMN, and with nothing freed if the holder has left |
| KernelSchedulers.KernelScheduler.HandleSegmentResult | kernel_scheduler/src/managers/memory_manager.c:76-144 | the step of the race with eviction: ready if already off its CPU, ended and off every list on failure |
| KernelSchedulers.KernelScheduler.EndProcess | kernel_scheduler/src/module_handlers/cpu_handler.c:39-65 | the process leaves its CPU and the exec list, and the CPU is available: the step SchedulerMeaning.StepMeans and CpusExact are about |
| KernelSchedulers.KernelScheduler.StartIoSyscall | kernel_scheduler/src/managers/io_manager.c:3-18 | the process is blocked, off its CPU, in the block list, with the block time taken |
| KernelSchedulers.KernelScheduler.IoFinished | kernel_scheduler/src/managers/io_manager.c:232-257 | the process leaves the block list, and is ready or, if suspended, ready to be resumed |
| KernelSchedulers.KernelScheduler.MutexCreate | kernel_scheduler/src/managers/mutex_manager.c:5-24 | a mutex of that name exists afterwards, an existing one is kept |
| KernelSchedulers.KernelScheduler.MutexLock | kernel_scheduler/src/managers/mutex_manager.c:34-93 | the step that SchedulerMeaning.LockGrants and StepMeans pin down, and for which MutexesSound, LockUrgency and the order of grants are proved |
| KernelSchedulers.KernelScheduler.MutexUnlock | kernel_scheduler/src/managers/mutex_manager.c:95-168 | the step for which UnlockUrgency, HandOverUrges and the order of grants are proved |
| KernelSchedulers.KernelScheduler.RemainingPriority | kernel_scheduler/src/managers/mutex_manager.c:115-126 | the nested loops compute the specified priority |
| KernelSchedulers.KernelScheduler.SuspensionSweep | kernel_scheduler/src/schedulers/medium_term_scheduler.c:17-35 | the loop that steps its index back after each removal leaves exactly the unexpired and collects exactly the expired, both in order |
| KernelSchedulers.KernelScheduler.SwapOutConfirmed | kernel_scheduler/src/schedulers/medium_term_scheduler.c:50-100 | the step that SchedulerMeaning.SwapOutExact pins down: suspended list on success, back to ready or blocked on refusal |
| SchedulerMeaning.SwapOutExact | kernel_scheduler/src/schedulers/medium_term_scheduler.c:50-100 | after the answer a process is in the suspended list if and only if it was confirmed; refused, it is ready exactly if it was woken meanwhile, and blocked otherwise |
| KernelSchedulers.KernelScheduler.SwapInsConfirmed | kernel_scheduler/src/schedulers/medium_term_scheduler.c:128-167 | every listed process leaves the suspended list and is ready or blocked again, in order |
| KernelSchedulers.KernelScheduler.RequestSwapIn | kernel_scheduler/src/schedulers/medium_term_scheduler.c:102-126 | exactly the processes ready to be resumed are asked for, most urgent first |
| KernelSchedulers.KernelScheduler.CreateProcess | kernel_scheduler/src/schedulers/long_term_scheduler.c:3-22 | the new process has the next pid |
| KernelSchedulers.KernelScheduler.ProcessCreateConfirmed | kernel_scheduler/src/schedulers/long_term_scheduler.c:24-43 | a created process stands at the end of the queue of its priority |

## Left out

- Sockets, accept loops, threads, semaphores, configuration, logging, real time: parameters or nothing. The clock only moves forward.
- Interleavings inside a handler: several handlers release a lock between a check and the message that follows it.
- Disconnection of CPUs, sticks and IO devices, and the shutdown on corrupted memory.
- Error exits that skip clean-up: STDIN of zero bytes (`kernel_scheduler/src/managers/io_manager.c:50-55`), a mutex that does not exist (`kernel_scheduler/src/module_handlers/cpu_handler.c:104-117`, `:145-158`), failed reads and writes of IO (`kernel_scheduler/src/managers/io_manager.c:174-179`, `kernel_scheduler/src/module_handlers/kernel_memory_handler.c:120-127`). They leave a dead process on a CPU or in a list.
- CreateSucceedsIff: is about a creation during whose wait nothing else is served; StoreWaits.WaitingCreateSucceedsIff is about the others.
- RunRefines: runs suspend processes with at most one segment, because with more the code loses bytes (SwapClash.SuspensionSafeIff).
- RunTransparent: takes as given that nobody is on a CPU when memory is compacted, because the scheduler ensures it only under the conditions of SchedulerCompaction.CompactionSafe; and that wrapped addresses reach no memory, by the bound on `segment_max_size`.
- Liveness: that a suspended process is resumed or a waiting one granted its mutex depends on other modules.
- Swapping of processes with several segments as a correct operation: only the clash is stated.
- The data of STDIN and STDOUT and the transfer itself; only when the address is still right is stated (StaleAddresses.StillNames).
- The choice of an IO device and its queue of pending operations; only the block transitions are modelled.
- The quantum timer: any order to evict a process that holds a CPU may come at any time while dispatching is on.
- Parsing of instructions and register names, loading of scripts, a failed fetch, `bytes_to_safe_string`, allocation failure.
- Each CPU's own list of sticks: CPUs and Kernel Memory reach the same sticks.
- Segment tables are one list tagged with the owner, and a process's own table is its part of that list in order: aliasing between tables is not modelled. Processes, lists and mutexes of the scheduler are sequences named by position, so aliasing of process pointers is not modelled either.
- `list_sort` is a function (stable insertion); its own loop is not modelled.
- Names of mutexes are compared as they are; folding of case is not modelled.
- Reading past the end of a malformed buffer: the model refuses it, the code reads on.
