# MINIX kernel core, memory allocator, virtual disk and two kitchens, verified

This project models the five parts of the repository where something can go wrong over a long run, and proves what
they keep. To verify it, run `dafny verify dfyconfig.toml` in this directory.

**Kernel core** (`kernel/proc.c` and the parts of `kernel/system.c` that change process state). `KernelState`,
`Messages` and `SystemTask` define a kernel state and one function for each entry point: rendezvous send and receive,
interrupts and the held queue, signals, fork, new map, exec, exit, stop and resume, group changes, ticks and rotation.
`KernelRuns` makes them the steps of a state machine, `KernelInvariant` and `KernelSteps` prove that each step keeps
the invariant, `KernelTheorem` lifts it to all runs and gives, for every place where the code trusts its callers, the
exact condition under which it works. `StartUp` is the state the runs start in, and `KernelWitnesses` exhibits runs
that reach users in groups with pending signals, and runs to the states in which an incautious caller breaks
something. `Fairness`, `FairSteps` and `Bounds` prove the round-robin and aging bounds. `QueueEffects` and
`CallEffects` say for each entry point which flags, queues and messages change, without reference to the functions that
define it; `AgingRuns` and `SignalRuns` follow waiting counters and signals through whole runs.
`ProcTable` has the same operations in the code's own form: queues linked through the process table, heads and tails,
walked and relinked in place. Each method is proved to leave the table representing what the function computes.

**Memory allocator** (`mm/alloc.c`). `HoleList` and `Fits` define the hole list and both placement policies, `Memory`
the retry loop that swaps processes out, `Ledger` and `MemoryRuns` the partition of memory into free clicks and
outstanding blocks, over all runs, `SwapEffects` who is moved where. `HoleTable` and `MemoryManager` are the slot
table and the allocator in place.

**Virtual disk** (`fs.c`). `VirtualDisk` defines the commands, `DiskLaws` their effect on contents, `DiskMap` the second
view of free space, `DiskImage` the directory and image in place.

**Bounded buffers** (`semafors/`, `monitors/`). `Rings` is the ring buffer. `Semaphores` and `Monitors` interleave the
seven threads one semaphore, lock or buffer access at a time; the proofs are in `SemaphoreProofs` and `MonitorProofs`.
`Pierogi` keeps the account of the ingredients for both.

**Clock** (`kernel/clock.c`, with the accounting of fork and exit). `ClockTime` has the operations and the account,
`AlarmRuns` what they change and when alarms go off.

Process number n of the kernel is slot n + NR_TASKS of the model; the numbers of tasks and slots are parameters.
Integers are unbounded. Where the code and its comments disagree, the model follows the code:

- `interrupt` readies its task without looking at other flags, and the walk for deadlocks skips its first node; both
  are modelled so, and `KernelTheorem.SendAcyclicIff` says what the latter costs.
- `do_setgroup` does not move queue links, T_RESUME readies whatever has no flag left, `do_fork` copies the caller
  queue: see the lemmas of `KernelTheorem` whose names end in `Iff`, and `KernelWitnesses` for inputs that go wrong.
- `alloc_mem` announces first fit and swapping, but with `wf_mode` 1 it uses neither: `Ledger.WorstInCoreIff`,
  `MemoryRuns.WorstLeavesCoreFromStart`.
- `do_fork` copies the parent's alarm to the child, and `next_alarm` starts at 0.
- `swap_inqueue` says the queue is cleaned of killed processes, but one that is queued again before that is linked
  twice: `MemoryManager.QueueLosesNoneIff`, `MemoryManager.RequeueLosesOne`.
- An empty file is refused for lack of space, and names longer than 31 characters are accepted but cannot be read
  back: `DiskMap.EmptyFileRefused`, `DiskLaws.RoundTripIff`.

## Model

| member | source | states |
|---|---|---|
| `KernelTheorem.RunnableIffQueuedOnce` | minix_exercise2_completed/minix_usr/src/kernel/proc.c:366-582 | in every reachable state a live process has no flag set iff it is on a ready queue; it is there once, on the queue its priority and group select, and on no other |
| `KernelTheorem.DeadlockCheckExact` | minix_exercise2_completed/minix_usr/src/kernel/proc.c:207-217 | once the parameter checks pass, mini_send answers ELOCKED iff the caller is reachable from the destination along p_sendto; no reachable state has a cycle of senders |
| `KernelTheorem.NoMissedRendezvous` | minix_exercise2_completed/minix_usr/src/kernel/proc.c:99-114 | a process is on a caller queue iff it is SENDING to its owner; no owner waits for a sender queued on it, or for an interrupt that is blocked |
| `KernelTheorem.SignalAccounting` | minix_exercise2_completed/minix_usr/src/kernel/system.c:1081-1089 | sig_procs counts the processes with pending signals; p_pendcount is pending plus told and not ended; a process with either is SIG_PENDING and does not run |
| `KernelTheorem.RunKeepsInv` | minix_exercise2_completed/minix_usr/src/kernel/proc.c:56-674 | the kernel invariant holds in every state of every run of enabled entry points |
| `KernelTheorem.BootInv` | minix_exercise2_completed/minix_usr/src/kernel/proc.c:311-361 | the state after start-up, with tasks, servers and INIT ready, satisfies it for any numbers of tasks and slots |
| `KernelWitnesses.UsersReachable` | minix_exercise2_completed/minix_usr/src/kernel/system.c:197-280 | runs from start-up reach a state with a forked child on the group-1 queue and a pending signal of INIT |
| `KernelTheorem.SetGroupExactIff` | minix_exercise2_completed/minix_usr/src/kernel/system.c:197-224 | do_setgroup leaves exactly the ready processes on each queue iff the process is blocked or its queue does not change |
| `KernelTheorem.SetGroupQueuedIff` | minix_exercise2_completed/minix_usr/src/kernel/system.c:197-224 | it keeps the queues right in content and order iff in addition the new estimate fits between those of its neighbours in group 3 |
| `KernelWitnesses.NewEstimateBreaksOrder` | minix_exercise2_completed/minix_usr/src/kernel/system.c:197-224 | a reachable state with two ready group-3 processes in which a new estimate for the first leaves group 3 unsorted |
| `KernelTheorem.ResumeExactIff` | minix_exercise2_completed/minix_usr/src/kernel/system.c:923-933 | T_RESUME keeps the queues exact iff some flag of the process was set |
| `KernelTheorem.ExecExactIff` | minix_exercise2_completed/minix_usr/src/kernel/system.c:387-388 | do_exec of an untraced process keeps the queues exact iff some flag of the process was set |
| `KernelWitnesses.ReadyTargetBreaksQueues` | minix_exercise2_completed/minix_usr/src/kernel/system.c:197-224 | right after start-up, do_setgroup, T_RESUME and do_exec of INIT, which is ready, each leave the queues wrong |
| `KernelTheorem.SendAcyclicIff` | minix_exercise2_completed/minix_usr/src/kernel/proc.c:207-244 | a send that blocks keeps the graph of senders acyclic iff the destination is not the sender itself, which the walk does not notice |
| `KernelWitnesses.TaskCanWaitForItself` | minix_exercise2_completed/minix_usr/src/kernel/proc.c:207-244 | right after start-up the running task can send to itself: the answer is OK and the senders form a cycle |
| `KernelWitnesses.ServerCanWaitForItself` | minix_exercise2_completed/minix_usr/src/kernel/proc.c:207-244 | a reachable state in which a server runs and does the same |
| `KernelTheorem.ForkCallersIff` | minix_exercise2_completed/minix_usr/src/kernel/system.c:244-269 | do_fork keeps the caller queues right iff the parent neither sends nor has callers |
| `KernelTheorem.ExitStrandsIff` | minix_exercise2_completed/minix_usr/src/kernel/system.c:405-466 | do_xit leaves no sender without destination iff nobody was sending to the exiting process |
| `KernelWitnesses.CalledTargetBreaksCallers` | minix_exercise2_completed/minix_usr/src/kernel/system.c:229-466 | a reachable state in which a fork of INIT leaves wrong caller queues and its exit strands a sender |
| `KernelSteps.StepKeepsInv` | minix_exercise2_completed/minix_usr/src/kernel/proc.c:56-674 | each of the fifteen kinds of step keeps queue exactness, rendezvous soundness, acyclicity, signal accounts and counter ranges |
| `KernelInvariant.SysCallKeeps` | minix_exercise2_completed/minix_usr/src/kernel/proc.c:130-162 | SEND, RECEIVE and BOTH keep the invariant |
| `KernelInvariant.MiniSendKeeps` | minix_exercise2_completed/minix_usr/src/kernel/proc.c:167-246 | delivering, or blocking and queueing the caller, keeps the invariant |
| `KernelInvariant.MiniRecKeeps` | minix_exercise2_completed/minix_usr/src/kernel/proc.c:251-306 | taking a sender, taking a blocked interrupt, or blocking keeps the invariant, also after the send half of a sendrec |
| `KernelInvariant.InformKeeps` | minix_exercise2_completed/minix_usr/src/kernel/system.c:1100-1125 | telling the memory manager of pending signals keeps the invariant |
| `KernelInvariant.WalkIsReach` | minix_exercise2_completed/minix_usr/src/kernel/proc.c:208-217 | the deadlock walk answers reachability along p_sendto |
| `KernelInvariant.InformNeverPanics` | minix_exercise2_completed/minix_usr/src/kernel/system.c:1109-1123 | when sig_procs is positive the scan finds a process with PENDING and signals to tell, and the message to a listening MM is accepted and delivered |
| `SendGraph.NewEdgeAcyclicIff` | minix_exercise2_completed/minix_usr/src/kernel/proc.c:231-233 | adding an edge keeps an acyclic graph of senders acyclic iff its source is not reachable from its end |
| `SendGraph.AcyclicHasNoCycle` | minix_exercise2_completed/minix_usr/src/kernel/proc.c:209-217 | where every chain of senders ends there is no cycle: the measure of the walk |
| `SendGraph.FewerEdgesAcyclic` | minix_exercise2_completed/minix_usr/src/kernel/proc.c:286-288 | a sender that is released leaves an acyclic graph |
| `KernelSteps.InterruptKeeps` | minix_exercise2_completed/minix_usr/src/kernel/proc.c:99-125 | interrupt() keeps the invariant, its in-line ready included |
| `KernelSteps.ServeHeldKeeps` | minix_exercise2_completed/minix_usr/src/kernel/proc.c:755-765 | one round of unhold keeps the invariant; interrupts and other steps may come between the rounds |
| `KernelSteps.UnholdKeeps` | minix_exercise2_completed/minix_usr/src/kernel/proc.c:747-766 | the flush keeps the invariant and empties the held list; held interrupts are repeated in order, what arrives in a round is repeated in a later one, each task repeated is readied or has its interrupt on record, and no other process changes |
| `KernelSteps.CauseSigKeeps` | minix_exercise2_completed/minix_usr/src/kernel/system.c:1059-1094 | recording a signal blocks its process, tells MM if it listens and keeps the invariant |
| `KernelSteps.EndSigKeeps` | minix_exercise2_completed/minix_usr/src/kernel/system.c:672-690 | ending a signal keeps the invariant |
| `KernelSteps.EndSigReadiesBlocked` | minix_exercise2_completed/minix_usr/src/kernel/system.c:686-688 | do_endsig never re-queues a process that is queued |
| `KernelSteps.ForkKeeps` | minix_exercise2_completed/minix_usr/src/kernel/system.c:229-280 | fork keeps the invariant |
| `KernelSteps.NewMapKeeps` | minix_exercise2_completed/minix_usr/src/kernel/system.c:286-320 | installing a map readies its process at most once and keeps the invariant |
| `KernelSteps.ExecKeeps` | minix_exercise2_completed/minix_usr/src/kernel/system.c:358-399 | exec keeps the invariant, with the signal of a traced process |
| `KernelSteps.ExitKeeps` | minix_exercise2_completed/minix_usr/src/kernel/system.c:405-466 | exit removes the process from ready queue, caller queue and signal counts, and keeps the invariant |
| `KernelSteps.StopKeeps` | minix_exercise2_completed/minix_usr/src/kernel/system.c:854-857 | T_STOP keeps the invariant |
| `KernelSteps.ResumeKeeps` | minix_exercise2_completed/minix_usr/src/kernel/system.c:923-933 | resuming a stopped process keeps the invariant |
| `KernelSteps.SetGroupKeeps` | minix_exercise2_completed/minix_usr/src/kernel/system.c:197-224 | moving a blocked process to another group keeps the invariant |
| `KernelSteps.TickKeeps` | minix_exercise2_completed/minix_usr/src/kernel/proc.c:616-636 | a tick keeps the invariant |
| `ReadyQueues.SchedKeepsInv` | minix_exercise2_completed/minix_usr/src/kernel/proc.c:641-674 | rotation keeps the queues exact and the running process at a head |
| `ReadyQueues.InsertSorted` | minix_exercise2_completed/minix_usr/src/kernel/proc.c:400-421 | insertion keeps group 3 sorted by cpu_estimate |
| `ReadyQueues.PickOrder` | minix_exercise2_completed/minix_usr/src/kernel/proc.c:311-361 | pick_proc serves the first non-empty queue in the order task, server, group 1, group 2, group 3, user: its head, in group 2 the first with the largest counter, which is reset; users are billed |
| `ReadyQueues.PickIdleIff` | minix_exercise2_completed/minix_usr/src/kernel/proc.c:311-361 | the idle task runs iff all six queues are empty |
| `Bounds.RoundRobinBound` | minix_exercise2_completed/minix_usr/src/kernel/proc.c:616-663 | while a group-1 process with k others ahead is kept waiting, group 1 uses fewer than RR_QUANTUM * k ticks, whatever else happens |
| `Bounds.TickAdvances` | minix_exercise2_completed/minix_usr/src/kernel/proc.c:616-629 | a tick taken while group 1 runs uses up exactly one of the ticks ahead of a waiting process |
| `Bounds.BypassBound` | minix_exercise2_completed/minix_usr/src/kernel/proc.c:333-346 | while a group-2 process waits with a positive, unsaturated counter, only rivals whose counter had reached its own are picked, each once |
| `Bounds.AgeRaisesByOne` | minix_exercise2_completed/minix_usr/src/kernel/proc.c:587-611 | one aging update raises any counter by at most 1, and that of a waiting process by exactly 1 until the limit |
| `FairSteps.StepGentle` | minix_exercise2_completed/minix_usr/src/kernel/proc.c:366-582 | a step other than a tick neither moves anyone ahead of a waiting group-1 process nor raises a counter of group 2 |
| `QueueEffects.ReadyEffect` | minix_exercise2_completed/minix_usr/src/kernel/proc.c:366-473 | a process is put on the queue of its class and on no other: in front of the user queue, in group 3 before the first estimate that is not smaller, elsewhere at the end; a task runs at once if no other is ready |
| `QueueEffects.UnreadyEffect` | minix_exercise2_completed/minix_usr/src/kernel/proc.c:478-582 | it leaves its queue, the others keep their order; another process is picked if it headed the server or user queue, ran in its group, or was the running task |
| `QueueEffects.SchedEffect` | minix_exercise2_completed/minix_usr/src/kernel/proc.c:641-674 | the head of group 1, or else of the user queue, goes to the end, in group 1 with a new quantum, and somebody is picked |
| `AgingRuns.QuantumEffect` | minix_exercise2_completed/minix_usr/src/kernel/proc.c:616-629 | a running group-1 process has one more tick on its account, and after RR_QUANTUM ticks goes to the end of its queue |
| `AgingRuns.TickEffect` | minix_exercise2_completed/minix_usr/src/kernel/proc.c:587-636 | every AGING_TICK-th tick raises by one, up to the limit, the counters of exactly the group-2 processes that are ready without running or wait for a message; no other tick changes a counter |
| `AgingRuns.AgingExact` | minix_exercise2_completed/minix_usr/src/kernel/proc.c:587-636 | over any run in which a group-2 process waits and is not picked its counter is fixed by the number of ticks |
| `AgingRuns.AgingPeriod` | minix_exercise2_completed/minix_usr/src/kernel/proc.c:630-635 | AGING_TICK ticks raise a waiting counter below the limit by exactly one, whatever else happens |
| `CallEffects.CallEffect` | minix_exercise2_completed/minix_usr/src/kernel/proc.c:130-162 | who may make which call; a refused call changes nothing, sendrec sends and then receives |
| `CallEffects.SendrecWaits` | minix_exercise2_completed/minix_usr/src/kernel/proc.c:130-162 | a user whose sendrec is accepted is blocked until the answer, and still sending iff the destination was not waiting for it |
| `CallEffects.SendRefusedIff` | minix_exercise2_completed/minix_usr/src/kernel/proc.c:182-217 | users may send to MM and FS only, nobody to an unused slot; a refused send changes nothing |
| `CallEffects.SendEffect` | minix_exercise2_completed/minix_usr/src/kernel/proc.c:220-246 | an accepted message ends the wait of a destination that waits for it, otherwise the caller blocks as the last on its caller queue |
| `CallEffects.ReceiveTakes` | minix_exercise2_completed/minix_usr/src/kernel/proc.c:266-284 | the first acceptable sender of the caller queue is released, before any interrupt |
| `CallEffects.ReceiveWaits` | minix_exercise2_completed/minix_usr/src/kernel/proc.c:286-306 | without one, a recorded interrupt is taken; otherwise the caller blocks, and MM is told of pending signals |
| `CallEffects.InformEffect` | minix_exercise2_completed/minix_usr/src/kernel/system.c:1100-1125 | MM gets the set of the first process with PENDING, whose set is then empty; nobody else changes, and somebody is picked |
| `CallEffects.CauseSigEffect` | minix_exercise2_completed/minix_usr/src/kernel/system.c:1059-1094 | a new signal joins the set and is counted; the first blocks its process and is told to an MM that waits for anybody |
| `CallEffects.EndSigEffect` | minix_exercise2_completed/minix_usr/src/kernel/system.c:672-690 | one signal fewer; the last one readies the process if no other flag is set |
| `CallEffects.InterruptEffect` | minix_exercise2_completed/minix_usr/src/kernel/proc.c:99-125 | a task that waits for it is readied, for any other the interrupt is recorded |
| `CallEffects.FlagEffects` | minix_exercise2_completed/minix_usr/src/kernel/system.c:854-933 | T_STOP takes the process off its queue and sets P_STOP; T_RESUME, a new map and exec clear their flag and ready the process if none is left |
| `CallEffects.ExitEffect` | minix_exercise2_completed/minix_usr/src/kernel/system.c:405-466 | the slot is empty, off its ready queue and its one caller queue, and its signals are not counted any more |
| `SignalRuns.StepRecords` | minix_exercise2_completed/minix_usr/src/kernel/system.c:1059-1125 | in every step the set of a process gains exactly what the step causes and is then kept or told as a whole; its count changes by what is caused and ended |
| `SignalRuns.SignalsCounted` | minix_exercise2_completed/minix_usr/src/kernel/system.c:1083-1084 | over any run p_pendcount is what was caused less what was ended |
| `SignalRuns.NoSignalLost` | minix_exercise2_completed/minix_usr/src/kernel/system.c:1059-1125 | over any run a signal once caused is pending until a step hands it to MM with the whole set |
| `ProcTable.Table.constructor` | minix_exercise2_completed/minix_usr/src/kernel/proc.c:49-55 | a table of unused slots with empty queues |
| `ProcTable.Table.StartUp` | minix_exercise2_completed/minix_usr/src/kernel/proc.c:366-473 | readying the slots of tasks, servers and INIT one after the other, and picking, leaves the start-up state |
| `ProcTable.Table.PickProc` | minix_exercise2_completed/minix_usr/src/kernel/proc.c:311-361 | changes proc_ptr, bill_ptr and wait_ticks as the value model of pick_proc does |
| `ProcTable.Table.Longest` | minix_exercise2_completed/minix_usr/src/kernel/proc.c:335-344 | the scan of group 2 finds the first process with the largest wait_ticks |
| `ProcTable.Table.Ready` | minix_exercise2_completed/minix_usr/src/kernel/proc.c:366-473 | relinks the ready queues in place to the queues of the value model, for every priority and group |
| `ProcTable.Table.InsertReady` | minix_exercise2_completed/minix_usr/src/kernel/proc.c:400-421 | links the process into group 3 at the place its estimate selects |
| `ProcTable.Table.Unready` | minix_exercise2_completed/minix_usr/src/kernel/proc.c:512-582 | takes the process off the queue its priority selects and picks another if it ran |
| `ProcTable.Table.UnreadyFromQueue` | minix_exercise2_completed/minix_usr/src/kernel/proc.c:517-577 | takes the process off a task, server or user queue if it is there, and tells whether it was the head |
| `ProcTable.Table.UnreadyFromGroup` | minix_exercise2_completed/minix_usr/src/kernel/proc.c:478-506 | takes the process off a group queue, at head, middle or tail, or leaves the queue alone |
| `ProcTable.Table.Sched` | minix_exercise2_completed/minix_usr/src/kernel/proc.c:641-674 | moves the head of the group-1 or user queue to its end and picks |
| `ProcTable.Table.DeadlockWalk` | minix_exercise2_completed/minix_usr/src/kernel/proc.c:208-217 | terminates, and answers whether the chain from the destination reaches the caller |
| `ProcTable.Table.MiniSend` | minix_exercise2_completed/minix_usr/src/kernel/proc.c:167-246 | leaves exactly the state and answers exactly the status of the value model |
| `ProcTable.Table.MiniRec` | minix_exercise2_completed/minix_usr/src/kernel/proc.c:251-306 | leaves exactly the state of the value model, the unlinked sender included |
| `ProcTable.Table.SysCall` | minix_exercise2_completed/minix_usr/src/kernel/proc.c:130-162 | leaves exactly the state and answers exactly the status of the value model |
| `ProcTable.Table.Interrupt` | minix_exercise2_completed/minix_usr/src/kernel/proc.c:99-125 | leaves exactly the state of the value model and keeps the invariant |
| `ProcTable.Table.UnholdOne` | minix_exercise2_completed/minix_usr/src/kernel/proc.c:758-762 | the first held task is taken off and its interrupt repeated |
| `ProcTable.Table.UnholdRound` | minix_exercise2_completed/minix_usr/src/kernel/proc.c:757-764 | one round, with the interrupts that arrive during it |
| `ProcTable.Table.Unhold` | minix_exercise2_completed/minix_usr/src/kernel/proc.c:747-766 | terminates with the state of the value model and an empty held list, for any finite sequence of arrivals |
| `ProcTable.Table.Inform` | minix_exercise2_completed/minix_usr/src/kernel/system.c:1100-1125 | hands the signals of the first process with PENDING to MM and picks |
| `ProcTable.Table.CauseSig` | minix_exercise2_completed/minix_usr/src/kernel/system.c:1059-1094 | leaves exactly the state of the value model and keeps the invariant |
| `ProcTable.Table.EndSig` | minix_exercise2_completed/minix_usr/src/kernel/system.c:672-690 | leaves exactly the state of the value model |
| `ProcTable.Table.Fork` | minix_exercise2_completed/minix_usr/src/kernel/system.c:229-280 | leaves exactly the state of the value model |
| `ProcTable.Table.NewMap` | minix_exercise2_completed/minix_usr/src/kernel/system.c:286-320 | leaves exactly the state of the value model |
| `ProcTable.Table.Exec` | minix_exercise2_completed/minix_usr/src/kernel/system.c:358-399 | leaves exactly the state of the value model |
| `ProcTable.Table.Exit` | minix_exercise2_completed/minix_usr/src/kernel/system.c:405-466 | leaves exactly the state of the value model |
| `ProcTable.Table.LeaveCallers` | minix_exercise2_completed/minix_usr/src/kernel/system.c:437-457 | the scan over all caller queues unlinks the exiting process from the one it is on and from no other |
| `ProcTable.Table.Stop` | minix_exercise2_completed/minix_usr/src/kernel/system.c:854-857 | leaves exactly the state of the value model |
| `ProcTable.Table.Resume` | minix_exercise2_completed/minix_usr/src/kernel/system.c:923-933 | leaves exactly the state of the value model |
| `ProcTable.Table.SetGroup` | minix_exercise2_completed/minix_usr/src/kernel/system.c:197-224 | leaves exactly the state of the value model |
| `ProcTable.Table.HandleClockTick` | minix_exercise2_completed/minix_usr/src/kernel/proc.c:616-636 | leaves exactly the state of the value model |
| `ProcTable.Table.AgeWaiting` | minix_exercise2_completed/minix_usr/src/kernel/proc.c:587-602 | raises the counters of waiting group-2 processes, up to the cap |
| `ProcTable.Table.AgeAllBlocked` | minix_exercise2_completed/minix_usr/src/kernel/proc.c:603-610 | raises the counters of blocked group-2 processes, up to the cap |
| `ProcTable.HeldQueue.constructor` | minix_exercise2_completed/minix_usr/src/kernel/proc.c:84-98 | no task is held |
| `ProcTable.HeldQueue.Hold` | minix_exercise2_completed/minix_usr/src/kernel/proc.c:84-98 | a task is appended to the held list unless it is on it |
| `ProcTable.HeldQueue.Take` | minix_exercise2_completed/minix_usr/src/kernel/proc.c:753-763 | the first held task is taken off the list |
| `HoleList.CanonicalUnique` | mem_management/minix_exercise5_completed/minix_usr/src/mm/alloc.c:188-286 | the set of free clicks determines the hole list |
| `HoleList.TakeKeeps` | mem_management/minix_exercise5_completed/minix_usr/src/mm/alloc.c:166-172 | biting clicks off a hole keeps the list canonical and removes exactly those clicks, which were free |
| `HoleList.FreeKeeps` | mem_management/minix_exercise5_completed/minix_usr/src/mm/alloc.c:188-286 | freeing a taken block keeps the list canonical and adds exactly its clicks |
| `HoleList.MergeKeeps` | mem_management/minix_exercise5_completed/minix_usr/src/mm/alloc.c:256-286 | merge turns a list that may touch at two places into a canonical one with the same clicks |
| `HoleList.TakeThenFree` | mem_management/minix_exercise5_completed/minix_usr/src/mm/alloc.c:161-229 | allocating and freeing the same block restores the list |
| `HoleList.FreesCommute` | mem_management/minix_exercise5_completed/minix_usr/src/mm/alloc.c:188-229 | frees of disjoint blocks commute |
| `Fits.FirstFitComplete` | mem_management/minix_exercise5_completed/minix_usr/src/mm/alloc.c:161-180 | the scan of first fit fails only if no hole below swap_base fits |
| `Fits.WorstFitCorrect` | mem_management/minix_exercise5_completed/minix_usr/src/mm/alloc.c:128-157 | worst fit takes the lowest-addressed of the longest holes, or nothing fits |
| `Fits.FitsAgree` | mem_management/minix_exercise5_completed/minix_usr/src/mm/alloc.c:128-180 | with all holes below swap_base both policies succeed on the same requests |
| `Fits.FirstFitLeavesMore` | mem_management/minix_exercise5_completed/minix_usr/src/mm/alloc.c:128-180 | the largest hole first fit leaves is at least the largest worst fit leaves |
| `Memory.VictimComplete` | mem_management/minix_exercise5_completed/minix_usr/src/mm/alloc.c:473-511 | the circular scan of swap_out passes every user slot before it gives up |
| `Memory.SwapOutProgress` | mem_management/minix_exercise5_completed/minix_usr/src/mm/alloc.c:507-510 | each successful swap_out leaves one process fewer in core: the retry loop ends |
| `Ledger.AllocKeeps` | mem_management/minix_exercise5_completed/minix_usr/src/mm/alloc.c:110-183 | alloc_mem keeps free clicks and outstanding blocks a partition of the memory |
| `Ledger.AllocWasFree` | mem_management/minix_exercise5_completed/minix_usr/src/mm/alloc.c:110-183 | under either policy every click of the block returned was free before, or belonged to a process that could be swapped out and has been |
| `Ledger.AllocFresh` | mem_management/minix_exercise5_completed/minix_usr/src/mm/alloc.c:110-183 | a block issued before that shares a click with the one returned has been given up by a process swapped out: nothing is issued twice |
| `Ledger.AllocLedger` | mem_management/minix_exercise5_completed/minix_usr/src/mm/alloc.c:110-183 | afterwards the ledger holds exactly the block returned, the new blocks of the processes swapped out, and the earlier blocks of all others |
| `Ledger.AllocNew` | mem_management/minix_exercise5_completed/minix_usr/src/mm/alloc.c:166-175 | after the call the block returned is in the ledger, held by no process, no longer free, and below swap_base under first fit |
| `Ledger.AllocTouches` | mem_management/minix_exercise5_completed/minix_usr/src/mm/alloc.c:161-182 | under either policy alloc_mem removes no block but those of processes it swaps out |
| `Ledger.NoMemComplete` | mem_management/minix_exercise5_completed/minix_usr/src/mm/alloc.c:161-182 | first fit answers NO_MEM only if no core hole fits and no process that may be swapped fits any swap hole |
| `Ledger.WorstNoMemIff` | mem_management/minix_exercise5_completed/minix_usr/src/mm/alloc.c:135-158 | worst fit answers NO_MEM iff no hole fits |
| `Ledger.SwapOutKeeps` | mem_management/minix_exercise5_completed/minix_usr/src/mm/alloc.c:462-514 | swap_out keeps the partition and gives its process a block of its own |
| `Ledger.SwapOutMoves` | mem_management/minix_exercise5_completed/minix_usr/src/mm/alloc.c:484-507 | swap_out makes exactly the clicks of the old block free below swap_base and takes exactly as many above |
| `Ledger.WorstInCoreIff` | mem_management/minix_exercise5_completed/minix_usr/src/mm/alloc.c:128-157 | the block worst fit returns lies in core iff for every swap hole some core hole is at least as long |
| `Ledger.TakesCoreIff` | mem_management/minix_exercise5_completed/minix_usr/src/mm/alloc.c:128-180 | what an allocation returns lies in core iff it is first fit, core covers swap in that sense, or nothing fits |
| `Ledger.WorstCanLeaveCore` | mem_management/minix_exercise5_completed/minix_usr/src/mm/alloc.c:128-157 | a memory on which worst fit hands out swap space |
| `Ledger.EndOfHole` | mem_management/minix_exercise5_completed/minix_usr/src/mm/alloc.c:256-286 | behind every hole lies an outstanding block or the end of a chunk |
| `Ledger.HoleBound` | mem_management/minix_exercise5_completed/minix_usr/src/mm/alloc.c:24-31 | there are never more holes than outstanding blocks and chunks together |
| `MemoryRuns.RunKeeps` | mem_management/minix_exercise5_completed/minix_usr/src/mm/alloc.c:110-514 | from mem_init on, every run of allocations, frees, exits, swaps in and out and swap_on keeps the partition |
| `MemoryRuns.RunSeparate` | mem_management/minix_exercise5_completed/minix_usr/src/mm/alloc.c:333-337 | as long as no process has been given swap space as core, processes on swap hold blocks above swap_base and all others below |
| `MemoryRuns.CoreUnlessWorstWithSwap` | mem_management/minix_exercise5_completed/minix_usr/src/mm/alloc.c:110-183 | no step gives a process swap space as core, unless it uses worst fit for a process while swap is on |
| `MemoryRuns.AllocatingSeparateIff` | mem_management/minix_exercise5_completed/minix_usr/src/mm/alloc.c:110-183 | an allocation or a walk of swap_in keeps core and swap apart iff everything it allocates for processes lies in core |
| `MemoryRuns.SwapInSeparateIff` | mem_management/minix_exercise5_completed/minix_usr/src/mm/alloc.c:417-457 | the walk of swap_in keeps them apart iff each process it brings back finds core |
| `MemoryRuns.FirstWorstGrowIff` | mem_management/minix_exercise5_completed/minix_usr/src/mm/alloc.c:291-338 | after mem_init and swap_on, the first segment placed by worst fit keeps core and swap apart iff some core hole is as long as the swap area |
| `MemoryRuns.WorstLeavesCoreFromStart` | mem_management/minix_exercise5_completed/minix_usr/src/mm/alloc.c:128-157 | a run from mem_init on in which worst fit puts a process into swap space as core |
| `MemoryRuns.WorstGrowSeparateIff` | mem_management/minix_exercise5_completed/minix_usr/src/mm/alloc.c:128-157 | a worst-fit allocation for a process keeps core and swap apart iff for every swap hole some core hole is at least as long, or nothing fits |
| `MemoryRuns.NeverFull` | mem_management/minix_exercise5_completed/minix_usr/src/mm/alloc.c:201-201 | while blocks and chunks are fewer than the table has slots, free_mem cannot find the table full |
| `MemoryRuns.BootInv` | mem_management/minix_exercise5_completed/minix_usr/src/mm/alloc.c:291-338 | mem_init establishes the invariant for any disjoint chunks |
| `MemoryRuns.SwapInKeeps` | mem_management/minix_exercise5_completed/minix_usr/src/mm/alloc.c:417-457 | swap_in keeps the partition |
| `MemoryRuns.LedgerFixesList` | mem_management/minix_exercise5_completed/minix_usr/src/mm/alloc.c:188-286 | two histories with the same outstanding blocks have the same hole list |
| `HoleTable.Table.constructor` | mem_management/minix_exercise5_completed/minix_usr/src/mm/alloc.c:309-313 | all slots are linked into the list of unused ones |
| `HoleTable.Table.DelSlot` | mem_management/minix_exercise5_completed/minix_usr/src/mm/alloc.c:234-251 | the hole disappears from the list and its slot becomes unused; the two lists still partition the table |
| `HoleTable.Table.Merge` | mem_management/minix_exercise5_completed/minix_usr/src/mm/alloc.c:256-286 | leaves the list that merging computes on hole lists |
| `HoleTable.Table.FreeMem` | mem_management/minix_exercise5_completed/minix_usr/src/mm/alloc.c:188-229 | leaves the list that freeing computes; panics, without a change, iff no slot is unused |
| `HoleTable.Table.FindWorst` | mem_management/minix_exercise5_completed/minix_usr/src/mm/alloc.c:135-145 | the scan keeps the hole and predecessor worst fit asks for |
| `HoleTable.Table.FindFirst` | mem_management/minix_exercise5_completed/minix_usr/src/mm/alloc.c:162-180 | the scan stops at the hole first fit asks for |
| `HoleTable.Table.FindSwap` | mem_management/minix_exercise5_completed/minix_usr/src/mm/alloc.c:488-491 | the scan answers what the value model computes: the first swap hole that is long enough |
| `HoleTable.Table.Bite` | mem_management/minix_exercise5_completed/minix_usr/src/mm/alloc.c:166-172 | bites clicks off a hole and removes it when it is used up |
| `MemoryManager.Manager.MemInit` | mem_management/minix_exercise5_completed/minix_usr/src/mm/alloc.c:315-338 | builds the list of all reported chunks, their sum and swap_base |
| `MemoryManager.Manager.FindVictim` | mem_management/minix_exercise5_completed/minix_usr/src/mm/alloc.c:473-492 | terminates, with the first process after outswap that can be swapped and its hole |
| `MemoryManager.Manager.SwapOut` | mem_management/minix_exercise5_completed/minix_usr/src/mm/alloc.c:462-514 | leaves exactly the state of the value model; no panic while a slot is unused |
| `MemoryManager.Manager.AllocMem` | mem_management/minix_exercise5_completed/minix_usr/src/mm/alloc.c:110-183 | terminates with the outcome and state of the value model; no panic while blocks and chunks are fewer than slots |
| `MemoryManager.Manager.SwapInqueue` | mem_management/minix_exercise5_completed/minix_usr/src/mm/alloc.c:396-412 | appends the process, or cuts the queue behind it if it is still linked |
| `MemoryManager.Manager.SwapIn` | mem_management/minix_exercise5_completed/minix_usr/src/mm/alloc.c:417-457 | walks the linked queue to the state and queue of the value model |
| `MemoryManager.RequeueLosesOne` | mem_management/minix_exercise5_completed/minix_usr/src/mm/alloc.c:396-412 | killing the first of two queued processes and queueing its slot again leaves the other on no queue |
| `MemoryManager.QueueLosesNoneIff` | mem_management/minix_exercise5_completed/minix_usr/src/mm/alloc.c:405-411 | swap_inqueue loses no queued process iff the new one is not linked any more, or is the last |
| `MemoryManager.QueuedEffect` | mem_management/minix_exercise5_completed/minix_usr/src/mm/alloc.c:396-412 | a process that is not linked is appended; behind one that still is, the queue ends |
| `SwapEffects.FirstFitEffect` | mem_management/minix_exercise5_completed/minix_usr/src/mm/alloc.c:161-175 | with a core hole that fits, the front of the lowest such hole is taken and nobody is swapped out |
| `SwapEffects.SwapOutEffect` | mem_management/minix_exercise5_completed/minix_usr/src/mm/alloc.c:462-514 | the first process behind outswap that can be swapped goes to the lowest swap hole that is long enough; failure, without a change, iff there is none |
| `SwapEffects.SwapInOneEffect` | mem_management/minix_exercise5_completed/minix_usr/src/mm/alloc.c:417-457 | a process that finds memory is in core in the block allocated and its swap block is free; one that does not stays as it is |
| `SwapEffects.SwapInQueue` | mem_management/minix_exercise5_completed/minix_usr/src/mm/alloc.c:417-457 | afterwards the queue holds, in their old order, exactly those of its processes that still wait |
| `DiskLaws.CopyInKeeps` | exercise6/minix_usr/virtual_disk/fs.c:92-174 | copying keeps files non-empty, inside the data area and apart |
| `DiskLaws.DataStaysInside` | exercise6/minix_usr/virtual_disk/fs.c:158-162 | no data write touches the superblock, grows the image or passes DISK_SIZE |
| `DiskLaws.NamesUniqueIff` | exercise6/minix_usr/virtual_disk/fs.c:102-108 | a saved file keeps names unique iff its name as stored was not in use |
| `DiskLaws.LongNamesCollide` | exercise6/minix_usr/virtual_disk/fs.c:165-165 | two different names with the same 31 characters are both accepted and stored alike |
| `DiskLaws.LongNamesCollideOnEmptyDisk` | exercise6/minix_usr/virtual_disk/fs.c:165-165 | two such names on an empty disk |
| `DiskLaws.RoundTripIff` | exercise6/minix_usr/virtual_disk/fs.c:158-197 | after a successful -cp, -out under the same name returns the file iff the name has at most 31 characters |
| `DiskLaws.OthersKept` | exercise6/minix_usr/virtual_disk/fs.c:161-168 | -cp changes no file of another name |
| `DiskLaws.DeleteRemoves` | exercise6/minix_usr/virtual_disk/fs.c:205-219 | -rm removes the file of that name and changes no other |
| `DiskLaws.FirstNamedEffect` | exercise6/minix_usr/virtual_disk/fs.c:176-219 | -out answers from the first file of a name and -rm takes only that one away; without any, -out has no answer and -rm changes nothing |
| `DiskLaws.RefusedIff` | exercise6/minix_usr/virtual_disk/fs.c:102-155 | a refused -cp changes nothing; a name is refused iff a file has it |
| `DiskLaws.RefusalReasons` | exercise6/minix_usr/virtual_disk/fs.c:102-155 | each refusal happens iff its reason applies and none before it |
| `DiskLaws.SaveEffect` | exercise6/minix_usr/virtual_disk/fs.c:119-168 | a saved file takes the first free entry and the lowest blocks with room, followed by zeros; no other entry or byte changes |
| `DiskLaws.RunAnswers` | exercise6/minix_usr/virtual_disk/fs.c:92-219 | after any sequence of -cp with names that fit and -rm with any names, -out answers what was last copied in, or nothing after -rm |
| `VirtualDisk.ScanFinds` | exercise6/minix_usr/virtual_disk/fs.c:133-146 | the streak scan finds the lowest run of free blocks that is long enough, and nothing for no blocks |
| `VirtualDisk.NeededBlocks` | exercise6/minix_usr/virtual_disk/fs.c:56-58 | the least number of blocks that holds the bytes |
| `DiskMap.MapTiles` | exercise6/minix_usr/virtual_disk/fs.c:260-278 | the lines of show_map tile the data area |
| `DiskMap.FreeLineIff` | exercise6/minix_usr/virtual_disk/fs.c:262-278 | its FREE lines are exactly the maximal zero runs of the bitmap |
| `DiskMap.FileLineIff` | exercise6/minix_usr/virtual_disk/fs.c:267-271 | an OCCUPIED line is shown iff the directory has that file at that place, and its fragmentation is what the last block leaves unused |
| `DiskMap.OneLinePerFile` | exercise6/minix_usr/virtual_disk/fs.c:261-274 | there are as many such lines as used entries |
| `DiskMap.CopyAgreesWithMap` | exercise6/minix_usr/virtual_disk/fs.c:124-146 | for a new name, a readable non-empty file and a free entry, copying succeeds iff some FREE line is long enough, at the start of the lowest |
| `DiskMap.EmptyFileRefused` | exercise6/minix_usr/virtual_disk/fs.c:133-155 | an empty file is never saved |
| `DiskMap.SortUnique` | exercise6/minix_usr/virtual_disk/fs.c:237-254 | any result of qsort on the directory is the list the map is made from |
| `DiskImage.DiskFile.constructor` | exercise6/minix_usr/virtual_disk/fs.c:62-84 | the image and directory of an empty disk |
| `DiskImage.DiskFile.BuildMap` | exercise6/minix_usr/virtual_disk/fs.c:124-131 | the bitmap marks exactly the blocks of files, all writes inside it |
| `DiskImage.DiskFile.FindStreak` | exercise6/minix_usr/virtual_disk/fs.c:133-146 | the scan answers the start the value model computes |
| `DiskImage.DiskFile.CopyToVirtual` | exercise6/minix_usr/virtual_disk/fs.c:92-174 | the outcome, directory and bytes of the value model |
| `DiskImage.DiskFile.CopyFromVirtual` | exercise6/minix_usr/virtual_disk/fs.c:176-203 | the bytes of the first file of that name, or nothing |
| `DiskImage.DiskFile.DeleteFile` | exercise6/minix_usr/virtual_disk/fs.c:205-219 | clears the entry of the first file of that name |
| `DiskImage.DiskFile.ShowMap` | exercise6/minix_usr/virtual_disk/fs.c:243-283 | the lines of the value model |
| `SemaphoreProofs.RunInv` | semafors/main.c:27-170 | the invariant holds in every state of every interleaving of the seven threads |
| `SemaphoreProofs.TokensConserved` | semafors/main.c:203-217 | at every buffer the tokens in full, empty and the hands of threads add up to N |
| `SemaphoreProofs.MutualExclusion` | semafors/main.c:32-40 | two threads are never inside the same buffer |
| `SemaphoreProofs.SlotDiscipline` | semafors/main.c:32-40 | a slot is written only when it holds no live item and read only when it holds the next |
| `SemaphoreProofs.LeavesInOrder` | semafors/main.c:104-118 | items leave a buffer in the order 0, 1, 2, ... of their production |
| `SemaphoreProofs.EachDoughOnce` | semafors/main.c:112-120 | every pieróg is made of a dough taken from the buffer, no two of the same |
| `SemaphoreProofs.FillingsInOrder` | semafors/main.c:104-120 | the pierogi of a kind use up its fillings 0, 1, 2, ... in order; at most one filling taken is still in its consumer's hand |
| `SemaphoreProofs.WorkDone` | semafors/main.c:27-170 | no step is idle: every seven steps of a producer put an item, every thirteen of a consumer make a pieróg |
| `SemaphoreProofs.NeverStuck` | semafors/main.c:27-170 | in every reachable state some thread can step |
| `Rings.Buffer.constructor` | semafors/buffer.c:4-10 | an empty buffer |
| `Rings.Buffer.Push` | semafors/buffer.c:12-16 | with a free slot, the item is appended |
| `Rings.Buffer.Pop` | semafors/buffer.c:18-23 | with an item, the oldest is removed and returned |
| `Rings.StoreSafeIff` | semafors/buffer.c:14-14 | a push keeps all items iff a slot is free, or the new item equals the one it overwrites |
| `MonitorProofs.RunInv` | monitors/monitor.c:17-56 | the invariant holds in every state of every run, with barging and spurious wake-ups |
| `MonitorProofs.RefinesQueue` | monitors/monitor.c:17-56 | every step is a put, a get or nothing on an atomic FIFO queue of capacity N |
| `MonitorProofs.LeavesInOrder` | monitors/main.c:21-86 | items leave a buffer in the order of their production |
| `MonitorProofs.EachDoughOnce` | monitors/main.c:58-86 | every pieróg is made of a dough taken from the buffer, no two of the same |
| `MonitorProofs.FillingsInOrder` | monitors/main.c:58-86 | the pierogi of a kind use up its fillings 0, 1, 2, ... in order; at most one filling taken is still in its consumer's hand |
| `MonitorProofs.NoLostWakeups` | monitors/monitor.c:21-51 | while a consumer sleeps, every item has an awake consumer coming or its signal to be sent; dually for the producer |
| `MonitorProofs.WorkDone` | monitors/monitor.c:17-56 | the work of a thread is its steps less what sleeping costs: without sleeping every six steps put an item, every eleven make a pieróg |
| `MonitorProofs.NeverStuck` | monitors/main.c:21-86 | for N at least 1 some thread can always go on without being woken |
| `MonitorProofs.BufferMonitor.TryPut` | monitors/monitor.c:21-28 | appends the item iff the buffer is not full |
| `MonitorProofs.BufferMonitor.TryGet` | monitors/monitor.c:42-49 | removes and returns the oldest item iff there is one |
| `ClockTime.TimeConserved` | minix_exercise2_completed/minix_usr/src/kernel/clock.c:448-457 | over ticks, fork and exit, the user time of live processes and their exited children is realtime plus pending ticks |
| `ClockTime.DueAlarmWakes` | minix_exercise2_completed/minix_usr/src/kernel/clock.c:458-475 | a tick after which an alarm is due interrupts the clock task |
| `ClockTime.RingsExactlyDue` | minix_exercise2_completed/minix_usr/src/kernel/clock.c:156-182 | do_clocktick rings exactly the due alarms, leaves none due, and next_alarm is at or before every alarm that remains, and after a scan it is one of them or LONG_MAX |
| `AlarmRuns.HandlerEffect` | minix_exercise2_completed/minix_usr/src/kernel/clock.c:448-482 | exactly the running process is charged for the tick and the lost ones; when the clock task is woken, and what is counted down |
| `AlarmRuns.ReschedulesIff` | minix_exercise2_completed/minix_usr/src/kernel/clock.c:184-188 | do_clocktick reschedules iff sched_ticks runs out and bill_ptr is prev_ptr |
| `AlarmRuns.SetAlarmEffect` | minix_exercise2_completed/minix_usr/src/kernel/clock.c:310-317 | the alarm is delta ticks from now, or off; no other slot changes, and next_alarm is the first of all alarms |
| `AlarmRuns.AlarmInTime` | minix_exercise2_completed/minix_usr/src/kernel/clock.c:156-182 | over any run an alarm goes off when the clock task serves the first tick at or after the time asked for, and at none before |
| `AlarmRuns.AlarmOnce` | minix_exercise2_completed/minix_usr/src/kernel/clock.c:159-172 | and it does not go off a second time |
| `ClockTime.ApplyKeeps` | minix_exercise2_completed/minix_usr/src/kernel/system.c:423-426 | every event keeps the time account and next_alarm at or before every armed alarm |
| `ClockTime.ClockTask.ClockHandler` | minix_exercise2_completed/minix_usr/src/kernel/clock.c:448-482 | leaves exactly the state and answer of the value model |
| `ClockTime.ClockTask.CommonSetalarm` | minix_exercise2_completed/minix_usr/src/kernel/clock.c:310-317 | sets the alarm and finds the next |
| `ClockTime.ClockTask.RingAlarms` | minix_exercise2_completed/minix_usr/src/kernel/clock.c:159-181 | one pass rings and clears the due alarms and finds the next |
| `ClockTime.ClockTask.DoClocktick` | minix_exercise2_completed/minix_usr/src/kernel/clock.c:156-189 | leaves exactly the state of the value model |

## Left out

- Message contents, message addresses and the EFAULT checks: a delivery is the change of flags and queues; message copying is not part of this model.
- Segments, register frames, `sendsig`, `sigreturn`, tracing memory, `do_copy`, `do_puts`, timer ports and interrupt controllers.
- The `lock_*` gateways and `switching`: a call that would compete with a process switch is the held-interrupt step; races inside one entry point do not exist in the model.
- `struct proc` as a record: its fields are columns of `ProcTable.Table`, and pointers are slots.
- The header constants `LOW_USER`, `NR_PROCS`, `NO_MEM`: the numbers are parameters, and NO_MEM is its own outcome instead of base 0.
- What keeps blocks to processes: the memory manager's fork, exec and exit are not part of this model; `MemoryRuns` allows any use of the allocator in which a block is freed once and by its owner.
- Swap file I/O, `sys_newmap`, `check_pending`, `swap_off`, `do_hole_map`, and the clamp of the swap size to `swap_maxsize`.
- MemoryManager.Manager.AllocMem: its state after a panic in `free_mem` is not described, because the system stops there.
- `kernel/main.c` is not part of this model: at start-up every slot of a task, a server and INIT (the first user slot) is readied in table order, and only then does pick_proc choose.
- The superblock's bytes: the directory is a record kept beside the image, of which only the size and place are modelled; `list_dir`, `remove_disk`, argument parsing and host file errors other than a missing source.
- Widths of `int` in `fs.c`: files of two gigabytes are not considered.
- `printf`, `sleep`, thread creation and the end of the simulation after ten seconds; starvation, which depends on the scheduler.
- MonitorProofs.BufferMonitor.TryPut: one pass of the while loop and the body behind it; waiting itself is in the state machine.
- MonitorProofs.BufferMonitor.TryGet: the same for `monitor_get`.
- Capacity N = 0 of the buffers, for which both programs stand still from the start.
- The watchdog functions of the clock: they arm no alarm. System time, seconds and `boot_time`.
- ClockTime.DueAlarmWakes: wrap-around of `clock_t` after 2^31 ticks is not modelled.
