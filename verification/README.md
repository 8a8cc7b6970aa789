# Jixia in Dafny

A model of the Jixia firmware: its microkernel (tasks, scheduler, timers, endpoints), the memory below it, and the two
binary formats it boots from. Everything is stated for any number of harts, task slots, endpoint slots, queue depths,
generation ceilings and pages, and over every run.

The kernel is described three times, and each description is proved to be an instance of the next.

1. Classes with arrays and links, as the code has them: `Executive` (run queue, delay queues, harts), `EndpointManager`
   (ring buffers, linked waiter FIFOs), `TrackerTable` (doubly linked sibling lists), `Microkernel` (the traps).
2. A value machine, `Machine`: one state, one function `Next` per trap, and `Park` where the code fails closed.
   `Runs`, `IpcRuns`, `Contexts`, `SystemCalls`, `Children`, `Joins`, `LostJoins`, `Clock` and `Arming` prove what
   holds over its runs.
3. The two abstract machines that the repository checks for small sizes: `IpcModel` and `SchedulerModel`.

Beside them stand `LockOrder` and `Interleaving` (locks as separate steps), `Lifecycle`, `BringUp`, `Pages` and
`PageManager` (physical memory), `Sv39` and `PageTables` (address spaces against the architectural walk), the `Ffs` modules (flash
images: packer, inspector, firmware reader) and the `Fdt` modules (the device tree scan).

A run begins in the state that `Microkernel.Bootstrap` establishes and goes on with system calls, timer interrupts and
first dispatches, on any hart in any order. Clocks, the checks on a new task's entry point and stack, the addresses of
stacks and return stub, and the sibling that `find_child_locked` meets first are parameters of a step.

## Findings

Properties that the code does not have in full. Each has an input and its exact condition.

- A join wakeup can be lost (`microkernel/core/task_manager.cpp:315-319`). A detached task that ends is removed without
  a look at a parent that waits for it, and `wait` blocks on a detached child like on any other. `Joins.StepJoins`
  gives the condition before the call: the joins stay in order if and only if the step is not one of three: a detach by
  the last child that could end the parent's wait; a wait that blocks while every live child it matches is detached;
  the exit of a detached awaited task that leaves its parent a completed child the wait is for. From boot, four calls
  lead there (`StrandedRun.DetachedOnlyChildStrandsItsParent`), and nothing any hart does later ends such a wait
  (`LostJoins.StrandedForever`).
- The fail-closed parks are unreachable with one exception (`microkernel/core/task_manager.cpp:315-319`, `334-339` and
  `258-266`): a task that is detached or hangs from the kernel, and either crashes or leaves behind a crashed completed
  descendant that would become the kernel's. `Runs.ParksExactly` states it as an if-and-only-if over every trap of every
  reachable state; `StrandedRun.InitialCrashStopsTheKernel` is the shortest instance.
- The contained window is backed from the start if and only if it ends below the top of the address space
  (`Lifecycle.InitialWindow`, `microkernel/memory/memory_lifecycle.cpp:33-71`).
- A leaf entry translates to the page asked for if and only if its address is below 2^56 and the page is readable or
  executable (`Sv39.LeafIsExact`, `microkernel/arch/riscv/sv39.cpp:22-25` and `72-103`): `map_page_4k` accepts a
  user-only mapping without either, which the walk takes for a pointer.
- A partition name that holds a NUL is packed whole and read back up to that NUL (`FfsFormat.NameRoundTrip`,
  `tools/pnor/ffs.py:88-92`).

## Model

| member | source | states |
|---|---|---|
| IpcModel.NextKeepsStateOk | verification/model/ipc_model_check.py:123-226 | every transition of the abstract endpoint machine keeps the checked state conditions, for every number of slots, queue depth and generation ceiling |
| IpcModel.DeliveryIsFifoExactlyOnce | verification/model/ipc_model_check.py:123-226 | over every run, within one epoch of a slot, the accepted messages are the delivered ones followed by the pending queue, and the blocked receivers are the served ones followed by the waiter FIFO |
| IpcModel.SpentForever | verification/model/ipc_model_check.py:123-226 | a generation that a slot has passed, or any generation of a retired slot, is never usable again |
| IpcModel.DestroyedHandlesStayDead | verification/model/ipc_model_check.py:123-226 | after a destroy transition the destroyed pair of slot and generation is usable in no later state |
| IpcModel.HandlesAreNeverReissued | verification/model/ipc_model_check.py:123-226 | no pair of slot and generation is published twice, and the generations of a slot are published in increasing order |
| IpcRefinement.SendSimulates | microkernel/core/ipc_manager.cpp:277-352 | send is the abstract send or send-and-wake transition or none; a rejected send changes nothing and answers an error |
| IpcRefinement.ReceiveSimulates | microkernel/core/ipc_manager.cpp:399-475 | recv by a task in no waiter FIFO is the abstract receive or block transition, or none |
| IpcRefinement.TryReceiveSimulates | microkernel/core/ipc_manager.cpp:354-397 | try_recv is the abstract receive transition, or none |
| IpcRefinement.CreateSimulates | microkernel/core/ipc_manager.cpp:135-189 | create is the abstract create transition and answers with the raw handle of the slot and generation it publishes; it answers -ENOSPC exactly when there is no transition |
| IpcRefinement.DestroySimulates | microkernel/core/ipc_manager.cpp:191-275 | destroy is the abstract destroy transition or none; without one nothing changes and the answer is an error |
| IpcRefinement.StepSimulates | microkernel/core/task_syscall.cpp:303-595 | every trap of the executive is at most one transition of the abstract endpoint machine, named by the call; traps without one leave the endpoints alone |
| IpcRefinement.HandleRoundTrip | microkernel/core/ipc_manager.h:58-72 | splitting a raw handle gives back its slot and generation; a 31-bit generation keeps bit 63 clear |
| IpcRefinement.LookupIsUsable | microkernel/core/ipc_manager.cpp:124-127 | the handle checks accept a raw handle if and only if it names a live epoch |
| IpcRuns.KernelRunIsIpcRun | microkernel/core/ipc_manager.cpp:135-475 | the endpoint tables along every kernel run, without the steps that leave them alone, are a run of the abstract machine |
| IpcRuns.KernelDeliveryIsFifoExactlyOnce | microkernel/core/ipc_manager.cpp:304-351 | exactly-once FIFO delivery and FIFO service of receivers for every kernel run on any harts and tasks, for the messages of LabelIsEffect |
| IpcRuns.DestroyedHandleIsRejected | microkernel/core/ipc_manager.cpp:208-240 | once a kernel step destroys an endpoint, its handle fails the lookup of send, recv, try_recv and destroy in every later state of the run |
| IpcRuns.CreatedHandleIsUsable | microkernel/core/ipc_manager.cpp:147-183 | a created handle is in the caller's a0, is usable at once and has bit 63 clear |
| IpcRuns.KernelHandlesAreNeverReissued | microkernel/core/ipc_manager.cpp:147-183 | no two create calls of a run return the same raw handle, whichever harts make them |
| Placement.AddTaskKeeps | microkernel/core/scheduler.cpp:129-149 | a task that has left its place and is not ended can always be published, and is then exactly in the run queue |
| Placement.SetNextKeeps | microkernel/core/scheduler.cpp:158-184 | a hart whose current task has been placed elsewhere can always be given the queue head or its idle task, after which every task is in one place |
| Runs.StepIsExact | microkernel/core/task_syscall.cpp:91-595 | from any state with the invariant a trap, crashing callers included, runs into a fail-closed park if and only if it is an exit of a task with nobody to report to that has crashed or would drop a crashed orphan; every other trap leaves the invariant over placement, trackers and endpoints |
| Runs.RunsKeepInv | microkernel/core/scheduler.cpp:22-184 | every state of every run satisfies the invariant |
| Runs.ParksExactly | microkernel/core/task_manager.cpp:297-343 | after any run, every fail-closed park other than the deliberate stop for a crash is unreachable; that stop is met exactly under a condition known before the trap |
| Runs.ExactlyOnePlace | microkernel/core/task_manager.cpp:297-411 | in every reachable state each live non-idle task is in exactly one place (one hart, the run queue, one delay queue, one waiter FIFO, a join), and its state letter names that place |
| Runs.TimerStepKeeps | microkernel/core/time_manager.cpp:258-302 | the timer interrupt goes on and keeps the invariant |
| Runs.BuryStep | microkernel/core/task_manager.cpp:309-342 | all outcomes of end_task under its lock, for clean and crashed exits: reaped, told to a waiting parent and reaped, or kept for the parent; the tracker forest afterwards is exactly that |
| SchedulerModel.MoveKeepsChecked | verification/model/scheduler_model_check.py:36-116 | every transition keeps check_state, for any number of harts and tasks |
| SchedulerRefinement.StepIsPath | microkernel/core/scheduler.cpp:151-184 | every trap is a path of the abstract placement machine: moves without dispatch, at most one dispatch on the trapping hart, then wakes; a timer interrupt with a non-empty queue does dispatch |
| SchedulerRefinement.RunsAreChecked | verification/model/scheduler_model_check.py:36-65 | every reachable kernel state, seen as a state of the model, passes check_state |
| SchedulerRefinement.QueuedTaskIsDispatched | microkernel/core/scheduler.cpp:22-100 | no overtaking: a task with i tasks before it in the run queue has been dispatched by the time of i + 1 timer interrupts, whatever else happens on any hart |
| Contexts.StepOwes | microkernel/core/ipc_manager.cpp:313-332 | of a task that is not trapping, a step writes only what a wake owes it: message registers, -43, or a join result in a0 |
| Contexts.WokenAtMostOnce | microkernel/core/ipc_manager.cpp:253-273 | between leaving a hart and the next dispatch a task's saved registers are written at most once |
| Contexts.PreemptedTaskResumesExactly | microkernel/core/task_context.cpp:48-68 | a preempted task is next dispatched with exactly the registers, mstatus and mepc it was interrupted with |
| Contexts.BlockedReceiverResumesOnce | microkernel/core/ipc_manager.cpp:448-475 | a blocked receiver is next dispatched after exactly one wake, with (0, four words, sender) of one send to its endpoint or with a0 = -43 because its endpoint was destroyed |
| Joins.StepJoins | microkernel/core/task_manager.cpp:297-387 | from joins in order, a step leaves every active wait with a live, not detached, matching child and no completed matching child if and only if it is not a losing step, which is decided before the call |
| Joins.JoinRunsAreExact | microkernel/core/task_manager.cpp:297-387 | up to any point of a run the joins are in order in every state if and only if no step was a losing one |
| Joins.NoLostJoin | microkernel/core/task_manager.cpp:345-373 | in runs without a losing step an active wait belongs to a task blocked in the join, has a live matching child that is not detached, and no completed matching child |
| Joins.ExitWakesParent | microkernel/core/task_manager.cpp:320-333 | the exit, clean or crashed, of a not detached awaited child ends the wait, puts the parent at the tail of the run queue with the child's id in a0 and removes the child's tracker |
| LostJoins.StepStrands | microkernel/core/task_manager.cpp:315-319 | no step of any hart ends a wait that has no live matching child, or whose named child is detached |
| LostJoins.StrandedForever | microkernel/core/task_manager.cpp:315-319 | a stranded parent stays blocked in its join for the rest of every run |
| StrandedRun.DetachedOnlyChildStrandsItsParent | microkernel/core/task_manager.cpp:315-319 | from boot, create, wait, detach by the child and its end strand the initial task |
| StrandedRun.InitialCrashStopsTheKernel | microkernel/core/task_manager.cpp:334-339 | an undefined call of the initial task right after boot parks the hart |
| Clock.DurationIsExact | microkernel/core/time_manager.cpp:157-176 | the tick count is the exact ceiling of the duration, at least 1; it is refused exactly for a malformed nanosecond part or a duration beyond 64-bit ticks; no intermediate value overflows |
| Clock.InsertIsStable | microkernel/core/time_manager.cpp:45-76 | a new entry goes behind every entry due no later and before every later one |
| Clock.ReleaseIsExact | microkernel/core/time_manager.cpp:226-256 | one pass releases exactly the due entries, in queue order, to the tail of the run queue |
| Clock.IdleArmsForNextWake | microkernel/core/time_manager.cpp:304-333 | with the idle task current the armed deadline is the smaller of the earliest next wake and the end of the idle slice, saturating |
| Clock.StepSleepers | microkernel/core/time_manager.cpp:178-256 | a sleeper stays asleep through a step if and only if the step is not a timer pass of its hart at or after its deadline |
| Clock.SleepIsNeverEarlyNorLost | microkernel/core/time_manager.cpp:178-256 | an accepted sleep lasts until the first timer pass of its hart at or after the deadline, and the task is then runnable with a0 = 0 |
| SystemCalls.LabelIsEffect | microkernel/core/task_syscall.cpp:303-560 | the endpoint transition of every step, read off the frame: a send carries the id of the trapping task and its a1 to a4, create and destroy carry its id, and each call is accepted exactly under the stated condition on the live epoch |
| SystemCalls.StepAnswers | microkernel/core/task_syscall.cpp:91-595 | after every call that does not end its caller: mepc is the frame's plus 4, mstatus and every register the call does not write are the frame's, and a0 (a0 to a5 for a delivered message) is the answer given per call number by the state before it, every error code included |
| SystemCalls.CallerFinds | microkernel/core/task_context.cpp:48-68 | over every run, the caller is next dispatched behind its ecall with the registers it trapped with and one answer: the one of the call, or of the single wake since if the call blocked |
| SystemCalls.MessagesArriveAsSent | microkernel/core/ipc_manager.cpp:277-475 | over every run and within one epoch: ids and a1 to a4 of the senders' frames are, in order, what the receivers find in a5 and a1 to a4, followed by the queue |
| SystemCalls.BlockedReceiverGetsTheSendersWords | microkernel/core/ipc_manager.cpp:304-332 | a blocked receiver resumes with a1 to a4 of the frame of one send to its endpoint and the sender's id in a5, or with -43 after its destruction; every other register is its own |
| SystemCalls.OnlyCreatorDestroys | microkernel/core/ipc_manager.cpp:218-232 | an epoch of an endpoint is destroyed only by the task whose call created it |
| Children.CreateIsExact | microkernel/core/task_manager.cpp:91-157 | create makes exactly one task if the entry is allowed and a slot, a tracker and a stack are free: ready at the end of the run queue, under its creator, with the next id; otherwise nothing changes |
| Children.ChildStartsAsAsked | microkernel/core/task_manager.cpp:143-157 | over every run a created task is first dispatched at the entry and with the argument of its creator's a0 and a1, its slot's stack and the return stub, every other register clear, user mode; its creator got its id |
| Children.WaitCollects | microkernel/core/task_manager.cpp:345-360 | a wait that finds a completed child returns its id in a0 and removes exactly its tracker, handing on what hung from it |
| Children.ExitRecords | microkernel/core/task_manager.cpp:297-343 | an exit frees the slot; the record is kept exactly for a parent that may still ask, with a0 and how the task ended |
| TrapFrames.InitializeUser | microkernel/core/task_context.cpp:34-47 | clears the register file and sets what a new task starts with |
| TrapFrames.UserStartsClean | microkernel/core/task_context.cpp:34-47 | entry, argument, stack and stub are in their registers, all others are zero, and of the status register exactly MPP and MPRV are cleared and MPIE is set |
| Arming.StepArms | microkernel/core/time_manager.cpp:304-333 | a trap that yields, blocks, sleeps, ends or is an interrupt arms its hart for a full slice of a user task, saturating, or for the next wake of the idle task; any other trap changes no hart, and none changes another hart |
| Clock.SliceIsExact | microkernel/core/scheduler.cpp:158-184 | a switch takes the queue head with a full slice, or the idle task with a slice that ends at the earliest wake or after the idle maximum |
| Forest.DoomedIsLeast | microkernel/core/task_manager.cpp:247-270 | a removal frees only its target, or for a target under the kernel the least set closed under completed children of freed trackers |
| Forest.ReapKeepsForest | microkernel/core/task_manager.cpp:247-270 | removal keeps the parent relation acyclic, frees no live tracker, leaves no completed tracker at the root and gives every survivor its nearest surviving ancestor |
| Executive.Executive.RunQueueInsert | microkernel/core/scheduler.cpp:22-65 | the links, head, tail and size thread the old queue with the task at its tail; ready and membership appear together |
| Executive.Executive.RunQueueRemove | microkernel/core/scheduler.cpp:67-100 | unlinks the head and computes the dequeue of the value machine, or stops |
| Executive.Executive.AddTask | microkernel/core/scheduler.cpp:129-149 | accepts exactly the tasks the value machine accepts and computes its state |
| Executive.Executive.ReturnRunnable | microkernel/core/scheduler.cpp:151-156 | computes return_runnable of the value machine |
| Executive.Executive.SetNextRunnable | microkernel/core/scheduler.cpp:158-184 | computes set_next_runnable of the value machine: queue head or idle task, and the slice |
| Executive.Executive.SetCurrentTask | microkernel/core/task_manager.cpp:393-411 | computes the checked change of the current task |
| Executive.Executive.DelayInsert | microkernel/core/time_manager.cpp:45-76 | the walk over the linked delay queue inserts where the sorted insertion of the specification does |
| Executive.Executive.TicksUntilNext | microkernel/core/time_manager.cpp:97-110 | the ticks to the head of the delay queue, bounded by the maximum |
| Executive.Executive.CheckReleaseTasks | microkernel/core/time_manager.cpp:226-256 | the release loop computes the recursive release of the value machine, or stops where it does |
| Executive.Executive.ArmCurrentTimeslice | microkernel/core/time_manager.cpp:304-333 | computes the armed deadline of the value machine |
| Executive.Executive.Sleep | microkernel/core/task_syscall.cpp:281-301 | computes the sleep call of the value machine, its refusals included |
| Endpoints.EndpointManager.CreateEndpoint | microkernel/core/ipc_manager.cpp:135-189 | the scan, the ring and the slot fields become the table of the abstract create, and the answer is its handle |
| Endpoints.EndpointManager.DestroyEndpoint | microkernel/core/ipc_manager.cpp:191-275 | computes destroy of the value machine over the linked waiter list, the wake loop included |
| Endpoints.EndpointManager.Send | microkernel/core/ipc_manager.cpp:277-352 | computes send of the value machine over the ring buffer and the waiter list |
| Endpoints.EndpointManager.TryReceive | microkernel/core/ipc_manager.cpp:354-397 | computes try_recv of the value machine over the ring buffer |
| Endpoints.EndpointManager.Receive | microkernel/core/ipc_manager.cpp:399-475 | computes recv of the value machine: deliver, reject, or block and switch |
| Endpoints.EndpointManager.WaiterPush | microkernel/core/ipc_manager.cpp:68-79 | appends to the linked waiter list of one endpoint and leaves the others alone |
| Endpoints.EndpointManager.WaiterPop | microkernel/core/ipc_manager.cpp:82-100 | takes the head of the linked waiter list of one endpoint and leaves the others alone |
| Trackers.TrackerTable.LinkTracker | microkernel/core/task_manager.cpp:218-228 | puts the tracker in front of its parent's doubly linked children; every other sibling list is untouched |
| Trackers.TrackerTable.UnlinkTracker | microkernel/core/task_manager.cpp:230-245 | takes the tracker out of its doubly linked sibling list; every other list is untouched |
| Trackers.TrackerTable.RemoveTracker | microkernel/core/task_manager.cpp:247-270 | the recursive removal terminates, keeps all sibling lists well formed, computes exactly the forest of the specification, and stops exactly when it meets a crashed orphan |
| Trackers.TrackerTable.FindChild | microkernel/core/task_manager.cpp:272-295 | returns the named child, or for any child a completed one if there is one, or none exactly when no child qualifies |
| TrapFrames.SaveFromTrap | microkernel/core/task_context.cpp:48-57 | copies every register, with register zero forced to zero, and mstatus, mepc, satp |
| TrapFrames.RestoreToTrap | microkernel/core/task_context.cpp:59-68 | copies every register back, with register zero forced to zero, and mstatus and mepc |
| TrapFrames.SaveRestoreRoundTrip | microkernel/core/task_context.cpp:48-68 | saving and restoring brings back the whole frame except a write to register zero |
| Microkernel.Microkernel.TryHandle | microkernel/core/task_syscall.cpp:91-595 | one system call, in place, is exactly one step of the value machine; it parks the hart if and only if it is an exit that must stop the kernel, and otherwise keeps the invariant and leaves the context of the task it resumes in the frame; a call that returns to its caller at once leaves there mepc plus 4, the answer, and the other registers it came with |
| Microkernel.Microkernel.HandleTimerInterrupt | microkernel/core/time_manager.cpp:258-302 | one timer interrupt, in place, is exactly one step of the value machine, keeps the invariant and resumes the dispatched task; if that is the interrupted one, with the frame it came with |
| Microkernel.Microkernel.StartHart | microkernel/core/kernel.cpp:150-160 | the first dispatch of a secondary hart is exactly one step of the value machine |
| Microkernel.Microkernel.EndTask | microkernel/core/task_manager.cpp:297-343 | computes end_task of the value machine in place |
| Microkernel.Microkernel.WaitTask | microkernel/core/task_manager.cpp:345-373 | computes wait_task of the value machine for the child it finds |
| Microkernel.Microkernel.CreateTask | microkernel/core/task_manager.cpp:91-157 | computes create_task and its publication in place, the child's context included; a missing slot, tracker or stack gives back the others and answers -ENOMEM |
| Microkernel.Microkernel.Bootstrap | microkernel/core/task_manager.cpp:77-157 | one idle task per hart with the idle context, then the initial task with its own, current on hart 0: the state in which every run begins |
| Microkernel.StartKernel | microkernel/core/cpu_manager.cpp:27-42 | for any number of harts below the number of slots there is a started kernel with the invariant |
| LockOrder.PathsAreOrdered | microkernel/core/ipc_manager.h:79-86 | every kernel path takes its locks upwards in the order and gives all of them back |
| LockOrder.NoDeadlock | microkernel/core/ipc_manager.h:79-86 | in every reachable state of any number of harts running these paths, if some hart is inside a path then some hart can step |
| LockOrder.MutualExclusion | microkernel/core/spinlock.h:15-26 | no lock is held by two harts in any reachable state |
| LockOrder.NeverTwoOfARank | microkernel/core/ipc_manager.h:79-86 | a hart holds locks in increasing order only, and never two endpoint locks |
| Interleaving.BlockIsDurable | microkernel/core/ipc_manager.cpp:448-475 | whenever an endpoint lock is free, no waiter of that endpoint is any hart's current task |
| Interleaving.ResultsAreOfWholeCalls | microkernel/core/ipc_manager.cpp:135-475 | for any interleaving of lock, act and unlock steps, the answer a hart returns with is that of the whole call on the table at one instant inside the call |
| Interleaving.StateIsOfWholeCalls | microkernel/core/ipc_manager.cpp:135-475 | the table that whole calls see passes through a run of the abstract endpoint machine made of the committed calls |
| Interleaving.UnlockedEndpointsAreOfWholeCalls | microkernel/core/ipc_manager.cpp:191-475 | an endpoint whose lock is free is what the committed calls made it |
| Interleaving.WholeResultIsTheCalls | microkernel/core/ipc_manager.cpp:135-475 | the answers of whole calls are those of the executive's five endpoint calls |
| Lifecycle.TransitKeepsOk | microkernel/memory/memory_lifecycle.cpp:132-227 | every transition keeps the lifecycle conditions and the window; a refused one changes nothing |
| Lifecycle.BackingOnlyImproves | microkernel/memory/memory_lifecycle.cpp:84-97 | no transition takes backing away, and only completing the mainstore transition changes it |
| Lifecycle.InitialWindow | microkernel/memory/memory_lifecycle.cpp:61-71 | the window is backed from the start if and only if it ends below the top of the address space |
| Lifecycle.MemoryLifecycle.Step | microkernel/memory/memory_lifecycle.cpp:132-227 | the ten transition functions in place compute the transition whose order BringUp fixes |
| BringUp.NextIsAccepted | microkernel/memory/memory_lifecycle.cpp:132-227 | a transition is accepted if and only if it is the next of the fixed order of ten, and then moves one place on |
| BringUp.AcceptedInOrder | microkernel/memory/memory_lifecycle.cpp:132-227 | whatever is attempted, the k-th accepted transition is the k-th of the order, and their number determines the whole state |
| BringUp.MainstoreComesLast | microkernel/memory/memory_lifecycle.cpp:189-197 | the mainstore transition is accepted only after discovered, training, trained, address map ready, decode committed and online, each once and in this order |
| Pages.LifeIsStaged | microkernel/memory/memory_lifecycle.cpp:61-227 | in every state of every run with an allocator the lifecycle is at one place of that order |
| Pages.AddsExactly | microkernel/memory/page_manager.cpp:63-102 | a range is accepted if and only if there is room, it is whole pages without wrap, no address of it is managed yet and every address of it has the backing named |
| Pages.PromotionIsReady | microkernel/memory/page_manager.cpp:114-147 | in every reachable mainstore state all contained ranges can be relabelled to DDR |
| Pages.AllocatesExactly | microkernel/memory/page_manager.cpp:149-161 | an allocation yields a page exactly when one remains in the memory of the stage, takes one page of that label and no other, and otherwise changes nothing |
| Pages.RemainingIsExact | microkernel/memory/page_manager.cpp:163-174 | the pages remaining under each label after every kind of step: added, moved by a promotion, one less by an allocation |
| Pages.PageIsAvailableExactly | microkernel/memory/page_manager.cpp:149-161 | after any run a page comes out if and only if DDR pages remain once allocation is enabled, or contained pages remain before the transition |
| Pages.NoPageTwice | microkernel/memory/page_manager.cpp:38-52 | over every interleaving of lifecycle steps, added ranges, promotions and allocations no page is handed out twice |
| Pages.LabelIsBacking | microkernel/memory/page_manager.cpp:149-161 | the next allocation is a page nobody has, labelled with the backing it has at that moment |
| Pages.PagesAreConserved | microkernel/memory/page_manager.cpp:163-174 | pages handed out plus pages remaining are the pages added |
| Pages.AddedIsTheRequests | microkernel/memory/page_manager.cpp:63-102 | the pages added are those of the accepted add_range calls and of nothing else |
| Pages.WindowStaysBacked | microkernel/memory/memory_lifecycle.cpp:84-97 | no address of the contained window becomes unavailable in any state of any run |
| PageManager.PageManager.AddRange | microkernel/memory/page_manager.cpp:63-102 | computes the specified range table and accepts exactly the addable ranges |
| PageManager.PageManager.PromoteBacking | microkernel/memory/page_manager.cpp:114-147 | checks every range with the label before it relabels any, and returns their number or 0 |
| PageManager.PageManager.AllocatePage | microkernel/memory/page_manager.cpp:149-161 | yields a page exactly when one remains where the stage allows, takes the next page of the first usable range and clears exactly that page |
| PageManager.PageManager.ZeroPage | microkernel/memory/page_manager.cpp:29-36 | clears the 512 words of the page and nothing else |
| PageManager.PageManager.RemainingPages | microkernel/memory/page_manager.cpp:163-174 | counts the pages still to be handed out with the label |
| Sv39.LeafIsExact | microkernel/arch/riscv/sv39.cpp:22-25 | a written leaf translates to exactly the requested page and flags if and only if the address is below 2^56 and the page is readable or executable |
| Sv39.WalkIsDeciding | microkernel/arch/riscv/sv39.cpp:27-59 | the architectural walk of well-formed tables gives what the lowest entry says, or faults where a table is missing |
| Sv39.LinkChild | microkernel/arch/riscv/sv39.cpp:44-59 | hanging a cleared table under an empty entry keeps the tables well formed and changes no translation |
| Sv39.SetLeaf | microkernel/arch/riscv/sv39.cpp:94-102 | writing a leaf decides exactly one translation |
| PageTables.AddressSpace.EnsureChildTable | microkernel/arch/riscv/sv39.cpp:44-59 | finds or adds the table below an entry, draws a page only if it was missing, and changes no translation |
| PageTables.AddressSpace.MapPage4k | microkernel/arch/riscv/sv39.cpp:72-103 | on success the architectural walk gives the requested page and flags if and only if the address is below 2^56 and the page readable or executable; every other page number translates as before; a failed call changes no translation and an argument it could map fails only for a present leaf or exhausted memory; one page is drawn per missing table |
| PageTables.AddressSpace.MapRange4k | microkernel/arch/riscv/sv39.cpp:105-125 | maps exactly the pages before the first failing one and names why that one failed; on success draws exactly one page per missing table prefix touched |
| FfsLayout.AlignUpIsLeast | tools/pnor/ffs.py:72-75 | accepts exactly powers of two and returns the least multiple not below the value |
| FfsLayout.PlacedApart | tools/pnor/ffs.py:213-272 | no two partitions overlap each other or the table, and each has room for its payload |
| FfsLayout.Place | tools/pnor/ffs.py:213-272 | the loop over the manifest computes the specified layout, or fails exactly where it does |
| FfsPacker.EntryBytes | tools/pnor/ffs.py:95-127 | packs an entry exactly when its fields fit, and the bytes read back field by field with a checksum that cancels |
| FfsPacker.HeaderBytes | tools/pnor/ffs.py:130-154 | packs the header exactly when its fields fit, with a checksum that cancels |
| FfsPacker.BuildImage | tools/pnor/ffs.py:191-317 | an image for exactly the accepted manifests; table, payloads and fill byte are where they belong, pairwise disjoint |
| FfsReaders.XorWords | tools/pnor/ffs.py:78-85 | the exclusive or of all big-endian words, or an error when the length is not a multiple of four |
| FfsReaders.InspectImage | tools/pnor/ffs.py:320-381 | computes the specified inspection, its errors included |
| FfsRoundTrip.InspectReadsBack | tools/pnor/ffs.py:320-381 | inspecting a packed table returns every partition in order with all its fields, and the name up to its first NUL |
| FfsFormat.NameRoundTrip | tools/pnor/ffs.py:88-92 | what is read back of a packed name is the part before its first NUL |
| FfsReaders.ChecksumIsZero | microkernel/firmware_store/ffs.cpp:30-41 | true exactly when the words cancel |
| FfsReaders.NameMatches | microkernel/firmware_store/ffs.cpp:43-62 | true exactly when the entry holds the given name followed by a zero |
| FfsReaders.FindPartition | microkernel/firmware_store/ffs.cpp:157-181 | computes the specified lookup; whatever the flash holds, a found partition lies inside the device |
| FfsRoundTrip.FindAgrees | microkernel/firmware_store/ffs.cpp:64-181 | on a packed table with the platform geometry the firmware finds a NUL-free name exactly when the inspector's list has it, and then as its first partition of that name |
| FfsPacker.PackedIsFound | microkernel/firmware_store/ffs.cpp:157-181 | with NUL-free partition names the inspector lists what was packed, and the firmware finds a name exactly when it was packed: the first such partition, its offset, sizes and flags, with its payload bytes at that offset |
| FfsManifest.MiscIsNamed | tools/pnor/ffs.py:157-164 | the flag byte has exactly the bits of the flags named; an unknown name is an error |
| FfsManifest.ProposedIsAsked | tools/pnor/ffs.py:217-268 | an entry becomes a partition if and only if its input, alignments and flags are sound and the partition is as asked: given or least aligned offset, given or least room, padded payload, flags; an optional entry without input is left out |
| FfsManifest.PlacedIsAsked | tools/pnor/ffs.py:213-272 | the layout is the one the manifest asks for, entry by entry, and is refused if and only if there is none |
| FfsExact.FindIsExact | microkernel/firmware_store/ffs.cpp:64-181 | for any flash: a lookup yields a partition if and only if the header is sound for the device, all checksums up to the first entry with the name hold, and that entry says so and lies inside the device |
| FfsExact.InspectIsExact | tools/pnor/ffs.py:320-381 | for any bytes: an inspection yields contents if and only if header and entries are sound and they are what each entry shows |
| FdtScan.CpuCount | lib/fdt.cpp:170-489 | for every content of the memory the scan terminates, reads nothing beyond the size its header gives, and returns the count the specification gives, which fits 32 bits |
| FdtScan.LargeBlockStops | lib/fdt.cpp:227-250 | a structure block so large that the 32-bit cursor could wrap begins inside the magic, where no token is valid |
| FdtScan.StringEquals | lib/fdt.cpp:64-86 | true exactly when the zero-terminated strings are equal |
| FdtScan.FindString | lib/fdt.cpp:89-114 | succeeds exactly when the offset has a terminated string inside the block |
| FdtScan.PropertyStringEquals | lib/fdt.cpp:117-161 | true exactly when the value is the expected string with its terminating zero |
| FdtTree.RootRun | lib/fdt.cpp:275-485 | the tokens of a tree count the direct children of /cpus whose device_type is exactly "cpu" |
| FdtFlat.TreeScans | lib/fdt.cpp:275-485 | the scan of a flattened tree, with fillers between any two items and any strings block that holds the property names, is valid and counts its processors |
| FdtParse.ScanIsExact | lib/fdt.cpp:275-488 | for any bytes: the scan is valid if and only if the structure block reads as a list of trees up to its end token, and then the count is that of their processors under /cpus |
| FdtParse.CountIsExact | lib/fdt.cpp:170-489 | for any memory: the result is valid if and only if the header is sound and the structure block is such a list |
| FdtBlob.FlattenedTreeCounts | lib/fdt.cpp:170-489 | every device tree has a flattened form, and the scan of it is valid and counts the processors under /cpus |

## Left out

- Forest.ReapKeepsForest: speaks of the parent relation; the sibling links are in `Trackers.TrackerTable.RemoveTracker`, which also has the stop for a crashed orphan.
- Runs.StepIsExact: idle tasks make no call but `yield`, the only one their code contains, and argument registers are 64 bits wide.
- Microkernel.Microkernel.TryHandle: a trap is one atomic step, so the read of the child's id after its publication in `create` (`microkernel/core/task_syscall.cpp:127-153`) is not interleaved with other harts; interleaving is modelled for the endpoint calls only.
- Microkernel.Microkernel.CreateTask: task ids are unbounded; 64-bit overflow of the id counter is not modelled.
- Children.ChildStartsAsAsked: the child's `satp` is its creator's, since a child shares its creator's address space; the clearing of its stack is not modelled.
- Microkernel.Microkernel.WaitTask: the output addresses are refused by the call, as in the code; nothing is written through them.
- Trackers.TrackerTable.FindChild: the two loops of the code are one loop that remembers a live candidate.
- Interleaving.ResultsAreOfWholeCalls: run-queue operations under an endpoint lock are atomic there, and memory is sequentially consistent.
- LockOrder.PathsAreOrdered: the lock operations of each path are listed by hand from the code, one script per path.
- Contexts.PreemptedTaskResumesExactly: `satp` is a constant of the task; the register itself is not modelled.
- Pages.NoPageTwice: `initialize` and `reset` of lifecycle and page manager occur only at the start of a run.
- Pages.PagesAreConserved: a page at address 0 counts as handed out although callers read 0 as none.
- PageTables.AddressSpace.MapPage4k: flags are the low eight bits of an entry; superpages do not occur, because the code writes none.
- FfsLayout.Place: a negative table offset, table size or block size is refused at once, where the packer fails later or packs nothing usable.
- FfsPacker.PackedIsFound: for the platform's own geometry, the only one the firmware reader accepts.
- FdtScan.CpuCount: the memory at the address is as long as a well-formed header says.
- FdtBlob.FlattenedTreeCounts: for trees whose flattened form fits the format's 32-bit sizes.
- Per-hart run queues and task affinity, which no path of the code uses.
- Assembly entry and exit, memory fences, control and status registers, `satp` values and translation caches.
- The virtual memory manager, the flash provider, the console, and booting before the kernel's first state.
- The probe builds, their markers and reports.
- File access and the manifest syntax of the packer; manifests are already parsed values.
