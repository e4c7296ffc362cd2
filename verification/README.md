# A verified model of vodd

vodd runs OpenCL kernels on a SPIR-V interpreter and watches them for concurrency bugs. This
project models the parts of it whose correctness is hardest to see from the code, and proves
what they promise, for every input, run or reachable state.

Check it with `dafny verify dfyconfig.toml`.

## What is modelled

**Races.** `Records` is the per-byte summary of accesses, one load and one store, and how
summaries merge. `RaceReport` is the deduplicated list of findings, over a general argument in
`LowestOfClass`. `RaceHistory` says what a race is by comparing every pair of accesses that
happened. `RaceDetector` is the detector object with its nested hash maps, updated in place; its
ghost logs remember every access, and its methods are proved to report, one entry a class, the
races of the summaries of what was recorded. Whether a byte is reported agrees with comparing
all pairs of accesses for a load against a store, and for any two when writes of equal value are
reported; which pairs of a byte are named does not, as a summary keeps one store. Where writes of
equal value are not reported, which is the default, the summary can miss a race of two stores;
the exact condition is proved for one comparison, a synchronisation and the end of a group.

**Work groups.** `Interpreter` is the coroutine that runs one work item: yields, typed replies,
fuel and debugger breaks, around an arbitrary deterministic instruction step. `Scheduler` runs a
group of such coroutines to its end, with the services it answers and the barrier flags; what it
may rely on of a kernel is a promise, and the promises of every kernel, of kernels whose
instructions are typed, and of straight-line kernels are given.
`NdRange` is grid validation, the choice of a local size, and the numbering of work items.

**Memory.** `Addresses` and `Storage` are the tagged addresses and the tiled buffer behind
them; `CallStack` is the frame stack that truncates it on return.

**Commands.** `Commands` is the protocol of queues, events, waiting calls and the worker thread,
as a machine whose steps are the critical sections between lock releases. `Tables` is the same
critical sections as methods on the tables, in place. `EventCounts`, `CommandSafety` and
`CommandSteps` hold the invariant every step keeps; `CommandOrder`, `CommandStatus`, `Wakeups` and
`Staffing` draw the conclusions. `RefCounts` is the reference counting of contexts, programs, kernels, queues and
buffers, one lock at a time.

**Types and values.** `TypeLayout` is the layout of a type by direct recursion, `LayoutTable` the
memoised table that is filled in place, `Codec` the encoding and decoding of values, and
`CodecLaws` the round trip, padding and the in-place writer.

**The rest.** `CompareExchange` is the retry loop the compiler prelude builds atomics from, on a
cell that the platform's native atomics change too, `TreeDiff` the fragments sent to a page,
`Drawing` the tree of ids the page is drawn with, and `Debugger` the reducer that decides when
waiting kernels are answered. `Arithmetic`, `Bytes` and `Wrappers` are shared helpers.

In the machines of `Commands` and `CommandSafety`, the fields `fate`, `origin`, `issued`, `taken`
and `executed`, which holds what each execution reported, are history: steps write them and never
look at them.

## Model

| member | source | states |
|---|---|---|
| `NdRange.AcceptedExactly` | src/platform.rs:1484-1534 | a launch grid is accepted exactly when it has one to three dimensions, nonzero sizes, no offset overflow, a local size that divides the global one, at most 256 items and any required size; the wrapped 64-bit product hides nothing |
| `NdRange.RefusedBecause` | src/platform.rs:1484-1534 | a refusal names something that is wrong with the launch, and work sizes are blamed before local ones |
| `NdRange.IdsAreInjective` | src/platform.rs:2945-2962 | in an accepted grid every (group, lane) has an id in `offset + [0, global)`, below 2^64, and is recovered from that id |
| `NdRange.IdsAreSurjective` | src/platform.rs:2945-2962 | every id of the range is the id of the (group, lane) computed back from it |
| `NdRange.EntityKnowsItself` | src/platform.rs:2945-2962 | a work item knows its group, its lane and its place in the group, x fastest, and its id is offset, groups before it and place, axis by axis |
| `NdRange.GroupsRunInIndexOrder` | src/platform.rs:2936-2943 | the launch lists every group of the grid, the one with index k in place k |
| `NdRange.Divide` | src/platform.rs:2261-2277 | each axis gets the largest divisor of its size within the budget left by the axes before it, and the product is at most 256 |
| `NdRange.LargestUpTo` | src/platform.rs:2267-2271 | the loop finds the largest divisor that the budget allows |
| `NdRange.Resolve` | src/platform.rs:2246-2259 | the local size is the one asked for, else the one the kernel was compiled for, else the driver's pick, which is refused only for the sizes and offset themselves |
| `NdRange.Launch` | src/platform.rs:1436-1441 | a launch is accepted exactly when sizes and offset are sound and the local size it names, or else its kernel requires, cuts the range into groups of at most 256; if both name one they agree |
| `Addresses.DecodeEncode` | src/address.rs:59-74 | an address decodes to its own region and slot, and stays in the slot when moved within 2^44 |
| `Addresses.EncodeDecode` | src/address.rs:59-74 | an address of a known region is determined by region, slot and offset |
| `Addresses.FieldsOfAddress` | src/address.rs:59-74 | an address is four bits of region, numbered from one, above sixteen of slot and forty-four of offset |
| `Storage.LiveSpansApart` | src/address.rs:109-138 | accesses to two live slots never share a byte and lie inside the storage |
| `Storage.TruncateTiles` | src/address.rs:144-146 | what survives truncation is still disjoint and inside |
| `Storage.StoreThenLoad` | src/address.rs:160-188 | a write is read back, and every access apart from it reads, or fails, as before |
| `Storage.AllocateThenLoad` | src/address.rs:160-171 | fresh memory reads zero at every offset and older memory reads as before, also where truncated space is reused |
| `Storage.AccessesInsideSlots` | src/address.rs:109-138 | an access is let through exactly when it lies inside a live slot of its own region; past the slot it overruns, elsewhere it is unmapped, and the addresses of slot zero without a region are null |
| `Storage.Storage.Allocate` | src/address.rs:160-171 | in place: appends a zeroed slot at the next aligned offset and returns its address; fails exactly when slots run out |
| `Storage.Storage.Read` | src/address.rs:173-182 | returns the bytes of the addressed slot, or null, unmapped or overrun |
| `Storage.Storage.Write` | src/address.rs:184-188 | in place: changes the addressed bytes of one slot and no other slot |
| `Storage.Storage.Zero` | src/address.rs:190-192 | in place: every slot becomes zeros of its own size, and the tiling stays |
| `Storage.Storage.Truncate` | src/address.rs:202-208 | in place: drops the slots from the watermark on and leaves the rest's contents |
| `CallStack.RunKeepsDiscipline` | src/interpreter.rs:542-566 | over any sequence of variables, calls and returns, watermarks never fall up the stack nor exceed the live slots |
| `CallStack.RunsWhileRoom` | src/interpreter.rs:542-566 | only a lack of slots stops a run whose calls nest: with room for every variable it declares, whatever it returns from in between, it goes through |
| `CallStack.CallLeavesCallerIntact` | src/interpreter.rs:1012-1035 | across a call, however nested, the slot table comes back exactly as it was, and callee slots read as unmapped after return |
| `CallStack.RunPreservesCaller` | src/interpreter.rs:1012-1035 | at every point of a call the caller's slots and watermarks are a prefix of the current ones |
| `CallStack.CallerAddressesStay` | src/interpreter.rs:1206-1218 | an address of the caller finds the same span throughout the call |
| `CallStack.Frames.DeclareVariable` | src/interpreter.rs:542-566 | in place: allocates zeroed private memory in the current frame, and does what the stack machine's step does |
| `CallStack.Frames.PushFrame` | src/interpreter.rs:1012-1035 | in place: a frame remembers the watermark at the call |
| `CallStack.Frames.PopFrame` | src/interpreter.rs:1206-1218 | in place: returning truncates to that watermark and keeps the contents below it |
| `Records.FoldKeeps` | src/detectors.rs:787-796 | each slot of a summary holds the first non-atomic access of its kind, else the last atomic one |
| `Records.FoldMerges` | src/detectors.rs:776-797 | summarising a concatenation equals merging the two summaries |
| `Records.SummaryExact` | src/detectors.rs:799-825 | for accesses of different work items, comparing summaries finds a race exactly when comparing all pairs does: always between load and store, and between any two when equal writes are reported |
| `Records.FoundIsReal` | src/detectors.rs:799-825 | whatever is found is two real accesses of different work items, not both atomic, at least one a store, and of different values where two stores of equal value are not reported |
| `Records.NotEveryPairIsNamed` | src/detectors.rs:787-816 | of three stores by three work items the pair of one kept store and the dropped one races and is not named |
| `Records.FoundExactly` | src/detectors.rs:799-825 | with equal writes not reported, what is found is a race of a load and a store, or of the two kept stores |
| `Records.StoreRaceShowsOnKept` | src/detectors.rs:807-816 | with equal writes not reported, two stores race exactly when a kept store races with some store of the other side |
| `Records.StoreRaceMissedExactly` | src/detectors.rs:776-825 | with equal writes not reported, a race is missed exactly when no load races with a store, the two kept stores do not race, and a kept store races with a dropped one across |
| `Records.StoreRaceCanBeMissed` | src/detectors.rs:776-825 | such a miss exists |
| `Records.SteadySidesShow` | src/detectors.rs:776-825 | none is missed where the stores of each side write one value and those of both are all atomic or all plain |
| `Records.MixedKindsCanBeMissed` | src/detectors.rs:776-825 | one value a work item is not enough when atomic and plain stores mix |
| `LowestOfClass.Replaced` | src/detectors.rs:841-853 | replacing an entry by a lower one of its class keeps the list one entry a class, each the lowest found |
| `RaceReport.ReportIsDetermined` | src/detectors.rs:827-882 | two reports of the same findings, in any order, hold the same diagnostics, each once |
| `RaceReport.AlikeIsSameClass` | src/detectors.rs:834-839 | two findings are taken for alike exactly when their unordered pairs of entity, location, store and atomic agree |
| `RaceReport.AlikeByFields` | src/detectors.rs:834-839 | field by field: entity, location, store and atomic of both accesses agree, in one order or the other, whatever value moved |
| `RaceReport.InsertedSummarises` | src/detectors.rs:827-854 | inserting a finding keeps the list one entry a class, each at the lowest byte found |
| `RaceReport.Report.Insert` | src/detectors.rs:827-854 | in place: the search for an entry alike, and what is replaced or appended, make that list |
| `RaceDetector.NotedSummarises` | src/detectors.rs:694-706 | noting the pairs of a byte adds exactly their races to what the list reports |
| `RaceDetector.OverlapConflicts` | src/detectors.rs:625-658 | two accesses leave samples in conflict at exactly the bytes both cover, if they are of different items and not both atomic, and a sample carries the byte its access moved there |
| `RaceHistory.SyncIsExact` | src/detectors.rs:684-719 | a synchronisation finds a race at a byte exactly when comparing every access recorded there since the last one does, for a load against a store, and for any two if equal writes are reported |
| `RaceHistory.SyncFindsConflicts` | src/detectors.rs:684-719 | spelt out on what was recorded: a load against a store is found at a byte exactly when samples of a load and of a store there are of different items and not both atomic; with equal writes reported, anything is found exactly when two such samples are not both loads |
| `RaceHistory.SyncMissesExactly` | src/detectors.rs:684-719 | if they are not, it says nothing of a racing byte exactly when no load races with a store there, every lane's kept store agrees with the one kept of the lanes before it, and for some lane one of them races with a dropped store |
| `RaceHistory.SteadyLanesShow` | src/detectors.rs:684-719 | with equal writes not reported, a synchronisation finds every racing byte at which each lane stored one value since the last one, and all stores were atomic or all plain |
| `RaceHistory.SteadyLanesConflict` | src/detectors.rs:684-719 | spelt out likewise: under that condition something is found exactly when two samples there are of different items, not both atomic, not both loads, and of different values if both are stores |
| `RaceHistory.FindingIsReal` | src/detectors.rs:690-718 | every finding is two accesses recorded at that byte that race |
| `RaceHistory.SyncOriented` | src/detectors.rs:690-718 | the later lane always comes first, so a class reads the same however it is found |
| `RaceHistory.ReportIgnoresInterleaving` | src/detectors.rs:684-719 | for fixed per-lane access sequences every interleaving and every map order give the same diagnostics |
| `RaceHistory.EndGroupIsExact` | src/detectors.rs:721-754 | ending a group finds a cross-group race at a byte exactly when some access of it and some earlier group's access race there, for a load against a store, and for any two if equal writes are reported |
| `RaceHistory.EndGroupFindsConflicts` | src/detectors.rs:721-754 | spelt out on what this group and the ones before it recorded, as for a synchronisation |
| `RaceHistory.CrossRacesBySamples` | src/detectors.rs:721-754 | with equal writes reported, the races across groups are pairs of recorded samples of different items, not both atomic, not both loads |
| `RaceHistory.EndGroupMissesExactly` | src/detectors.rs:721-754 | with equal writes not reported, ending a group says nothing of a racing byte exactly when no load races with a store, the kept stores do not race, and a kept store races with a dropped one across |
| `RaceHistory.SteadyGroupsShow` | src/detectors.rs:721-754 | and finds every cross-group race where the group and the earlier ones stored one value each, all atomically or all plainly |
| `RaceHistory.SteadyGroupsConflict` | src/detectors.rs:721-754 | and spelt out with the values compared |
| `RaceHistory.EndGroupOriented` | src/detectors.rs:721-754 | the ending group's access always comes first |
| `RaceDetector.RaceDetector.BeginGroup` | src/detectors.rs:612-623 | in place: forgets the lanes and the group, keeps what earlier groups left |
| `RaceDetector.RaceDetector.Record` | src/detectors.rs:625-658 | in place: each watched byte's summary becomes that of one more access |
| `RaceDetector.RaceDetector.Sync` | src/detectors.rs:684-719 | in place: adds to the report, one entry a class, the races between each lane's summary and that of the lanes before it, of what was recorded in the space since its last synchronisation, and hands its global accesses on |
| `RaceDetector.RaceDetector.Barrier` | src/detectors.rs:660-682 | in place: synchronises exactly the address spaces the barrier names, and forgets what was recorded in those alone |
| `RaceDetector.RaceDetector.EndGroup` | src/detectors.rs:721-754 | in place: synchronises what is left, and adds the races between the summary of every global access of this group and that of the earlier groups |
| `RaceDetector.RaceDetector.CompareGroups` | src/detectors.rs:728-751 | in place: the loop over bytes compares and merges the group summary into the kernel summary |
| `RaceDetector.RaceDetector.EndKernel` | src/detectors.rs:756-758 | in place: forgets the groups of the launch |
| `Interpreter.Coroutine.Run` | src/interpreter.rs:464-519 | in place: the resumption loop does what the recursive resumption says, which the next two rows spell out |
| `Interpreter.ReplyIsHanded` | src/interpreter.rs:464-519 | a reply of the kind the pending yield asks for goes, as it came, to the instruction that waits, and what that does is the answer or what the loop goes on from, one unit of fuel poorer; any other reply is refused and nothing executes |
| `Interpreter.AdvanceWalks` | src/interpreter.rs:475-492 | a plain resumption is a walk from state to state, each an instruction that went on, the first of them with the reply and the others without; it ends without a frame, without fuel, in an error or in a yield, and each instruction has cost one unit |
| `Interpreter.ResumeErases` | src/interpreter.rs:464-519 | one resumption of a debugged item, with breaks acknowledged, answers and ends as the plain one when its fuel covers what the plain one spends and a unit for each new line the plain one comes to, and otherwise runs out of fuel |
| `Interpreter.AdvanceErases` | src/interpreter.rs:494-519 | the same inside the loop, started with or without a break behind it |
| `Interpreter.DebuggingIsTransparent` | src/interpreter.rs:464-519 | over whole runs, erasing breaks gives the same answers if and only if the debugged item's fuel covers the plain run's and a unit a new line; then the states agree and there is one break a new line. A run has at most as many new lines as it spends |
| `Interpreter.DebuggingRunsOut` | src/interpreter.rs:464-519 | if the plain run ends out of fuel, a debugged one with no more fuel does too, and what it answered before that is a beginning of the plain answers |
| `Interpreter.SameAllowance` | src/platform.rs:2673-2691 | with the one allowance both get, debugging changes nothing exactly when the plain run leaves a unit of fuel for each new line, and a run that ends out of fuel does so debugged as well |
| `Interpreter.AllowanceCanFallShort` | src/platform.rs:2673-2691 | it can change something |
| `Interpreter.StopsMoveOn` | src/interpreter.rs:464-519 | in any run, two stops with no other between them are at different lines, and an instruction was paid for between them |
| `Scheduler.ServiceFits` | src/platform.rs:2964-3125 | every service answers with what memory, counters and ids hold, and with a reply its yield accepts; it parks exactly at barriers and faults exactly where memory refuses the access |
| `Scheduler.ResumeSpends` | src/interpreter.rs:464-492 | a runnable lane of a kernel that keeps its promise spends fuel when resumed, can come back if it yields, and ends only in errors the promise allows |
| `Scheduler.EveryKernelKeeps` | src/interpreter.rs:464-519 | every kernel whose yields leave a frame keeps the promise that asks nothing, so that what is said of groups holds for it |
| `Scheduler.TypedKeeps` | src/interpreter.rs:578-1080 | if each instruction takes its start and, where it has yielded, the replies that fit the yield, a kernel promises never to refuse a reply, whatever other replies it would turn down |
| `Scheduler.ScriptsAreTyped` | src/interpreter.rs:578-1080 | straight-line kernels of loads, stores, atomics, barriers and the like are typed, though each waiting instruction refuses some reply |
| `Scheduler.ScriptsKeep` | src/interpreter.rs:578-1080 | they promise never to trap, and to ask for nothing but what they list |
| `Scheduler.RunItem` | src/platform.rs:2744-2792 | a lane runs until it ends, breaks, parks or stops the launch, having been handed at each yield what the host answered: it is done exactly when no frame is left, ready when its last yield is a break, parked when it is a barrier; it stops the launch only when a resumption with what was due fails, for want of fuel or in a trap its kernel may end in, or when the host refuses the access it asks for |
| `Scheduler.BarrierDetector.Waiting` | src/detectors.rs:517-522 | the number of lanes whose flag is set |
| `Scheduler.AdvanceLanes` | src/platform.rs:2695-2721 | resumes every runnable lane, keeps lanes in step, and total fuel falls |
| `Scheduler.Release` | src/platform.rs:2794-2824 | called with no lane ready, makes exactly the parked lanes ready and clears their flags |
| `Scheduler.Pass` | src/platform.rs:2650-2662 | one pass of the loop spends fuel and leaves somebody ready, or ends it with nobody ready and nobody waiting |
| `Scheduler.LiveLanesWaitTogether` | src/platform.rs:2794-2824 | when a barrier opens, all live lanes have passed exactly the same number of barriers |
| `Scheduler.EveryLaneDone` | src/platform.rs:2650-2671 | with nobody ready and nobody waiting every lane is done |
| `Scheduler.FuelFalls` | src/platform.rs:2638-2671 | the total fuel falls by what one lane spent |
| `Scheduler.RunGroup` | src/platform.rs:2638-2671 | a group ends for every kernel; when it ends well every lane is done with no frame left, at the end of a run from the start of the kernel in which every reply is the host's answer to the yield before it; otherwise some lane, after such a run, has spent its fuel, was refused a request by the host, or trapped as its kernel's promise allows: for a typed kernel never by refusing a reply |
| `Tables.Tables.Enqueue` | src/platform.rs:1544-1579 | in place: makes the event, retains it and each awaited event once an occurrence, and appends the command; at an awaited event that is gone it fails, keeping what it made and retained before |
| `Tables.EnqueueLeaksExactly` | src/platform.rs:1559-1565 | an enqueue keeps reference counts exact if and only if every awaited event exists: otherwise it leaves references nobody holds |
| `Tables.Tables.Finish` | src/platform.rs:3851-3870 | in place: after a command, releases the awaited events, sets the status, releases the command's event and lets its queue go on |
| `Tables.FinishIsRun` | src/platform.rs:3851-3870 | that is what the protocol's worker steps come to when nobody comes in between |
| `Tables.Tables.TakeReady` | src/platform.rs:3884-3915 | in place: takes the ready head of the lowest queue, to run or to end with a terminated event's status; takes none exactly when no head is ready |
| `EventCounts.EventStepConserves` | src/platform.rs:3603-3696 | creating, retaining, releasing and setting events keep each count equal to what holds the event |
| `EventCounts.EnqueueConserves` | src/platform.rs:1544-1579 | enqueueing raises counts exactly by the caller's, the queue's and the wait list's references |
| `EventCounts.QueueStepConserves` | src/platform.rs:1100-1177 | steps on queues keep the counts |
| `EventCounts.WorkerStepConserves` | src/platform.rs:3829-3873 | each release of the worker gives up exactly one held reference |
| `EventCounts.AwaitedExists` | src/platform.rs:1560-1571 | no pending command loses an event it awaits |
| `CommandSteps.StepSafe` | src/platform.rs:3796-3915 | every step of every thread keeps the protocol's invariant |
| `CommandSteps.RunSafe` | src/platform.rs:3796-3915 | every reachable state satisfies it |
| `CommandSteps.DrainedSettled` | src/platform.rs:1209-1226 | every command ever enqueued on an idle queue has its final status |
| `CommandSteps.TakenHead` | src/platform.rs:3884-3915 | the head that is taken has all its events complete, or copies the status of a terminated one |
| `CommandOrder.StartsInOrder` | src/platform.rs:3884-3915 | commands of a queue start in enqueue order, each after every command taken before it has its final status |
| `CommandOrder.EarlierSettlesFirst` | src/platform.rs:3884-3915 | of two commands of a queue the one enqueued first has its final status before the other is taken |
| `CommandOrder.RunsAfterItsEvents` | src/platform.rs:3829-3915 | no command has executed unless every event of its wait list is complete |
| `CommandOrder.ExecutesAfterItsEvents` | src/platform.rs:3829-3845 | when the worker is about to execute, the awaited events still exist, are complete, and the command never ran before |
| `CommandOrder.RunsAfterWhatItWasGiven` | src/platform.rs:1544-1579 | whatever happens after an enqueue, its command executes only once all it was given to wait for is complete, and never completes if some of that is terminated |
| `CommandOrder.ExecutedAsReported` | src/platform.rs:3836-3866 | in every reachable state an executed command that is settled has the status its execution reported |
| `CommandOrder.ExecutionDecides` | src/platform.rs:3836-3866 | so what an execution reports, success or failure, is the final status however the run goes on |
| `CommandOrder.FailureSpreads` | src/platform.rs:3829-3915 | a command that waits, through any number of others, on a terminated event never executes, and ends with a failure copied from an event it waits on |
| `CommandOrder.FailedExecutionSpreads` | src/platform.rs:3836-3915 | the same from the moment an execution has failed, before its event is marked |
| `CommandOrder.FinishMeansSettled` | src/platform.rs:1209-1226 | when finish succeeds, every command ever enqueued on the queue has its final status |
| `CommandOrder.UserStatusStands` | src/platform.rs:3676-3696 | the status a user gives an event is never changed |
| `CommandStatus.UserEventStaysSubmitted` | src/platform.rs:3603-3696 | nor set by anybody else: until its user does, it is submitted and nothing that waits for it executes |
| `CommandStatus.OneRunsAtATime` | src/platform.rs:3829-3848 | of all commands of all queues at most one is running, and the one that executes is |
| `CommandStatus.FirstFailureIsCopied` | src/platform.rs:3884-3915 | of several terminated events the first in the wait list gives the command its status, and it does not execute |
| `CommandStatus.WaitReturnsExactly` | src/platform.rs:3730-3749 | a wait returns when it looks exactly if every event is complete or terminated, or some event is gone, and sleeps otherwise |
| `CommandStatus.FinishReturnsExactly` | src/platform.rs:1209-1226 | a finish, or the drop of the last reference, goes on when it looks exactly if the queue has no command pending or running, and then all ever enqueued there is settled; it sleeps otherwise |
| `CommandStatus.RetainThenRelease` | src/platform.rs:1135-1162 | keeping a queue and letting it go again changes nothing |
| `CommandStatus.LastReleaseRemoves` | src/platform.rs:1144-1172 | letting go of the last reference of an idle queue removes that queue and no other, and then sees to the worker |
| `CommandOrder.PendingKeepsItsEvents` | src/platform.rs:1560-1571 | a pending command's own event and awaited events exist |
| `CommandOrder.WaitsOnlyForUsers` | src/platform.rs:3814-3915 | when the worker finds nothing ready and some command is unsettled, some head waits on a user event not yet set: commands never wait on each other in a circle |
| `CommandOrder.HistoryOnlyGrows` | src/platform.rs:3829-3915 | along every run what was issued and taken is only appended to, and no final status is revised |
| `Wakeups.StepWakeful` | src/platform.rs:67-81 | every step keeps: a sleeper on the current generation whose condition holds has a pending signal |
| `Wakeups.EventsKeepHeads` | src/platform.rs:3612-3622 | events come and go without making a queue's head ready, as awaited ones cannot go |
| `Wakeups.StepQuiet` | src/platform.rs:3769-3793 | a step after which nobody owes a signal makes no waited-for condition true |
| `Wakeups.NoCallSleepsOn` | src/platform.rs:3715-3751 | in every reachable state a wait or finish asleep on the current generation, though it could return because what it waits for holds or its queue is gone, is woken by a signal somebody is about to send; only a wait with a missing event is left out |
| `Wakeups.WorkerNeverSleepsOn` | src/platform.rs:3814-3827 | the same for the worker, when a head is ready or shutdown is set |
| `Wakeups.LostEventIsNotSignalled` | src/platform.rs:3715-3751 | and that one has to be: a wait whose event is released by another thread sleeps unsignalled |
| `Staffing.StepStaffed` | src/platform.rs:3796-3827 | every step keeps: queues without a worker, or a worker without queues, are known to a call about to look, and one call at a time ends the worker |
| `Staffing.NeverStranded` | src/platform.rs:3796-3812 | in every reachable state with a queue and the worker absent, ended or told to end, some call is about to look after the worker, and another is still ending it unless it is absent |
| `Staffing.StartsTheWorker` | src/platform.rs:3796-3812 | where it is absent, that call starts it in its next step |
| `RefCounts.StepConserves` | src/platform.rs:3369-3399 | every step keeps each count equal to users, live objects owned, occurrences in pending commands and references held by calls in progress |
| `RefCounts.CountsAreExact` | src/platform.rs:821-831 | so in every reachable state, for contexts, programs, kernels, queues and buffers alike |
| `RefCounts.PendingKeepsBuffers` | src/platform.rs:1567-1569 | every buffer a pending command names exists, and so does what owns it |
| `RefCounts.NothingLeaks` | src/platform.rs:3378-3399 | when users have released all, commands are done and calls have returned, no object is left |
| `RefCounts.OwnersAreLive` | src/platform.rs:3319-3323 | every object's owner is live and of the right kind, and no sub-buffer has a sub-buffer |
| `RefCounts.CascadeIsDrops` | src/platform.rs:3378-3399 | one call's cascading release is a run of single releases that leaves nothing owed |
| `RefCounts.ReleaseFinds` | src/platform.rs:3378-3399 | no cascading release comes to an object that is gone |
| `RefCounts.Objects.Release` | src/platform.rs:3378-3399 | in place: the recursive release computes that cascade and reports whether it found every object |
| `TypeLayout.StructPlaces` | src/parser.rs:1080-1107 | members are aligned, ascending, non-overlapping and inside the size, which is a multiple of the alignment |
| `TypeLayout.SizeIsMultiple` | src/parser.rs:1025-1110 | every size is a multiple of its alignment |
| `TypeLayout.StructIsPlaced` | src/parser.rs:1076-1107 | the same of every structure type, packed or not, by the layouts of its members |
| `TypeLayout.SizesInBytes` | src/parser.rs:1025-1075 | a scalar takes the least number of bytes for its width, a pointer eight, a vector its lanes, four for three, and each is aligned to its own size; an array takes its elements and their alignment |
| `TypeLayout.StructIsTight` | src/parser.rs:1080-1107 | a structure wastes nothing: each member has the first aligned place after the one before it, the size is the first multiple of the alignment that holds them, and the alignment is that of a member |
| `TypeLayout.StructOfMembers` | src/parser.rs:1076-1107 | a declared structure is placed by its members' own sizes and alignments, or unaligned if packed |
| `TypeLayout.AlignmentIsPower` | src/parser.rs:1025-1110 | with OpenCL widths and vector lengths every alignment is a power of two |
| `TypeLayout.MemberIsAligned` | src/bitcode.rs:874-909 | a member of an aligned unpacked aggregate is absolutely aligned for its type: a scalar, pointer or vector lies at a multiple of its size in bytes (section 6.1.5 of OpenCL 1.2) |
| `TypeLayout.PathIsAligned` | src/bitcode.rs:874-909 | so is whatever an access chain through unpacked aggregates reaches, however deep, down to scalars, pointers and vectors at multiples of their sizes |
| `LayoutTable.LayoutTable.CalcLayout` | src/parser.rs:1009-1023 | in place: the memoised layout is that of direct recursion, failures included, and nothing remembered is lost |
| `LayoutTable.LayoutTable.CalcLayoutInner` | src/parser.rs:1025-1110 | in place: the same for one type, its parts being remembered on the way |
| `LayoutTable.LayoutTable.PlaceMembers` | src/parser.rs:1088-1107 | the running offset gives the offsets, size and alignment of the structure |
| `LayoutTable.LayoutTable.SetLayouts` | src/parser.rs:805-817 | in place: fills the table exactly, and fails exactly when some type fails otherwise than by naming no type |
| `Codec.SlotFits` | src/bitcode.rs:874-909 | a member's bytes lie inside its aggregate |
| `Codec.SlotsApart` | src/bitcode.rs:896-909 | the bytes of two members never meet |
| `Codec.BytesHold` | src/value.rs:946-965 | a number that fits is read back from its little-endian bytes |
| `Codec.LowByteFirst` | src/value.rs:946-954 | byte k of a number holds its k-th eight bits: the low byte comes first |
| `Codec.BytesOfNumber` | src/value.rs:956-965 | and bytes read as a number are written back as they were |
| `CodecLaws.RoundTrip` | src/value.rs:195-277 | encoding succeeds on any destination of layout size, and decoding gives the value back, for every well-typed value of every acyclic type |
| `CodecLaws.SlotIsMember` | src/bitcode.rs:874-909 | a member is encoded where the layout puts it |
| `CodecLaws.ScalarBytes` | src/value.rs:195-208 | a flag is one byte, zero or one, and a number or address its bytes, low byte first, zero-extended to the size of its type |
| `CodecLaws.MemberBytes` | src/value.rs:209-223 | a member of a composite is written in its slot exactly as it would be by itself |
| `CodecLaws.DecodedLoosely` | src/value.rs:228-277 | decoding takes more than encoding makes: any byte but zero is true, and bits beyond a width are dropped |
| `CodecLaws.TooShort` | src/value.rs:195-277 | a value without members is written and read whole or, with too few bytes, not at all |
| `CodecLaws.TooShortForMembers` | src/value.rs:209-223 | encoding members fails for want of bytes exactly when the slot of one of them sticks out |
| `CodecLaws.PaddingKept` | src/value.rs:195-226 | encoding changes no byte that holds no part of the value, whatever the value and however it ends |
| `CodecLaws.ZeroedIsZeroBytes` | src/value.rs:319-347 | the zeroed value is what all-zero bytes decode to |
| `CodecLaws.Encode` | src/value.rs:195-226 | in place: the recursive writer leaves the buffer as the specification says, also when it fails on the way, and touches nothing outside its stretch |
| `CodecLaws.EncodeMembers` | src/value.rs:209-223 | in place: the loop over members writes each into its slot and stops at the first failure |
| `CodecLaws.PutBits` | src/value.rs:946-954 | in place: writes the low bytes, or fails without writing |
| `CompareExchange.Play` | src/compiler.rs:49-59 | in place: call objects that take turns on one cell do what the machine of turns says |
| `CompareExchange.UpdatesAreAtomic` | src/compiler.rs:49-59 | whatever first reads return and however calls and native atomics interleave, the cell and every returned value are those of the calls made one at a time |
| `CompareExchange.FailuresBounded` | src/compiler.rs:49-59 | in no run does a call fail more often than there are calls |
| `CompareExchange.EveryRunEnds` | src/compiler.rs:49-59 | N calls take at most N(N + 2) turns, and a run that cannot go on has every call returned |
| `CompareExchange.MinimumWins` | src/compiler.rs:65-69 | the cell ends at the least of its first value and what was offered, in any order |
| `CompareExchange.MinimumOfRun` | src/compiler.rs:65-69 | so at the end of every run of minimums, however interleaved |
| `CompareExchange.MaximumWins` | src/compiler.rs:65-69 | and for maximums the greatest |
| `CompareExchange.MaximumOfRun` | src/compiler.rs:65-69 | at the end of every run of maximums |
| `CompareExchange.ExchangeConserves` | src/compiler.rs:65-70 | exchanges lose no value |
| `CompareExchange.SumOfRun` | src/platform.rs:3150-3190 | at the end of every run of native additions the cell holds what it held and all that was added, at the width it wraps at |
| `TreeDiff.Diff` | src/hypermedia.rs:542-570 | in place: pushes to and truncates the shared vector as the specification says |
| `TreeDiff.AnyStirred` | src/hypermedia.rs:549-556 | in place: stops at the first kid with a change left over |
| `TreeDiff.PatchWorks` | src/hypermedia.rs:542-594 | if ids are unique in the new tree and what is sent has the ids of what it replaces, applying the fragments by id gives the new tree; what is left over is reported and sends nothing |
| `TreeDiff.MatchNeeded` | src/hypermedia.rs:542-594 | and only then: fragments named after themselves never change the id at a place |
| `TreeDiff.PatchExact` | src/hypermedia.rs:542-594 | with unique ids and a named root, the fragments give the new tree if and only if every node sent has the id of the node it replaces |
| `TreeDiff.OnlyLeavesAreSent` | src/hypermedia.rs:542-570 | between trees of one shape, with the same tags, attributes and ids, exactly the leaves with another body are sent, in document order, and nothing around them |
| `TreeDiff.PageKeepsUp` | src/hypermedia.rs:351-362 | over any sequence of drawings the page is right after each one if and only if each can follow the one before, and then it shows the last |
| `TreeDiff.JoinsInStep` | src/hypermedia.rs:317-326 | a page that joins late is sent the whole tree last shown, and is right from then on |
| `Drawing.DrawingIsUnique` | src/templates.rs:112-251 | no drawing has an id twice, for any number of launches, and its root is the page |
| `Drawing.DrawingsFollow` | src/templates.rs:71-76 | any drawing can follow any other, also when launches come or the page becomes a note |
| `Drawing.RedrawingSends` | src/templates.rs:112-251 | while the launches and the selected one stay, a redrawing sends exactly the places that changed; when they do not, it sends the whole page once, and for the same note nothing |
| `Drawing.PageFollowsViews` | src/hypermedia.rs:351-362 | so over any sequence of views a page that applies what it is sent is always right |
| `Drawing.JoinedPageFollows` | src/hypermedia.rs:317-326 | so a page loaded on one view that joins on another shows every later view |
| `TreeDiff.Sender.Push` | src/hypermedia.rs:351-362 | in place: sends the fragments and remembers what is shown |
| `TreeDiff.Sender.Join` | src/hypermedia.rs:317-326 | what a page that joins is sent |
| `TreeDiff.RenamedNodeIsLost` | src/hypermedia.rs:542-570 | trees for which it fails: a node renamed under an unchanged parent |
| `Debugger.WaitAnswers` | src/state.rs:632-648 | a wait is carried on, told to send locals if brief, or parked if detailed, and then only while its launch has a tab that is finished, or paused and watched |
| `Debugger.HoldAnswers` | src/state.rs:789-823 | the same of the part after the update |
| `Debugger.GroupIsHeld` | src/state.rs:789-823 | a launch that tells of its running group is held exactly when its tab is finished, when a lane of the group stands on a line with a breakpoint, or when the group is the focused one and the launch steps or is paused; and its tab then follows the breakpoint and is paused, or else goes on running |
| `Debugger.SilentIsHeld` | src/state.rs:789-823 | one that waits with nothing to tell is held as at no breakpoint |
| `Debugger.BreakpointHolds` | src/state.rs:824-835 | a breakpoint that is set holds whatever group comes to its line, and set twice is cleared |
| `Debugger.PressThenHeld` | src/state.rs:650-664 | after resume a launch is held at breakpoints only, after step also in the focused group, and meanwhile its controls are disabled |
| `Debugger.OpensHeld` | src/state.rs:591-603 | a launch that has just opened is held in its first group and in no other |
| `Debugger.ParkedShowsResume` | src/state.rs:789-872 | while a kernel is parked at its group, the control that frees it is enabled |
| `Debugger.PressFrees` | src/state.rs:650-664 | pressing frees the launch that owns the tab, a finished tab also all who linger, and a tab no launch owns does nothing |
| `Debugger.ParkedCanBeFreed` | src/state.rs:253-262 | pressing the tab of a parked launch always reaches that launch |
| `Debugger.CloseFrees` | src/state.rs:612-630 | closing a launch frees its replies and its tab |
| `Debugger.ReduceSeated` | src/state.rs:522-542 | every change keeps: each launch has a tab of its own, and only launches with a tab are parked |
| `Debugger.ReduceKeepsReplies` | src/state.rs:467-519 | each change keeps every reply once and takes in the one it brings |
| `Debugger.RepliesConserved` | src/state.rs:467-542 | over any sequence of changes, replies parked, lingering and sent are together exactly those brought in |
| `Debugger.LocalsOnlyForBrief` | src/debugger.rs:120-145 | counted with their occurrences, only the replies of brief waits are told to send locals and only those of detailed ones are parked, so the exchange of a step is over after two waits |
| `Debugger.LingerersFreedBy` | src/state.rs:650-664 | a program that lingers is freed by pressing a finished tab some launch still owns, and by no other change |
| `Debugger.LingerersCanBeFreed` | src/state.rs:650-664 | so some change frees it exactly while a launch owns a finished tab |
| `Debugger.NobodyLingersAfter` | src/state.rs:605-610 | once freed, nobody lingers again |
| `Debugger.OverOnlyForLingerers` | src/state.rs:605-610 | over any sequence of changes, the replies told that all is over and those still lingering are together exactly those of programs that came to linger |
| `Debugger.ClosedTabIsDead` | src/state.rs:612-630 | closing a launch leaves its tab to nobody, with resume enabled unless it had faulted, and pressing it does nothing |
| `Debugger.DeadTabStaysDead` | src/state.rs:522-542 | and no later change gives that tab an owner |
| `Debugger.StrandedWhenAllClosed` | src/state.rs:612-664 | so when every launch has closed unpressed, a program that lingers stays until a launch opens |
| `Debugger.Server.Handle` | src/debugger.rs:301-314 | in place: reduces a change and posts what became due |

## Left out

Of the components modelled:

- Lanes of a group, and user threads, take turns as interleaved steps; each critical section is one sequentially consistent step. Rayon, memory ordering and host pointers are not modelled.
- What each instruction computes is an arbitrary deterministic step, except declaring variables, calling and returning.
- The services of a running lane are answered by an arbitrary host function of the moment, the lane and the yield; the bounds checks behind them are not modelled.
- Of the barrier detector the flags are modelled, its diagnosis of divergent barriers is not.
- In `Commands` enqueueing is one step under the queue lock and its awaited events are held by the user, so that it succeeds; `Tables.Tables.Enqueue` has the failing case for events, and in `RefCounts` what a failing call retained stays `reserved`. Users enqueue on, and retain, only queues they hold a reference to.
- Setting the status of a user event is one step with its check; event callbacks, profiling stamps and error reports are not modelled.
- Contexts of events and queues are not compared in `Commands`; `RefCounts` takes the last release of a queue and its removal as one step, which `Commands` takes apart.
- Object ids, generations and reference counts are unbounded; their wrap-around and debug-build overflow checks are not modelled. Users release only references they hold.
- The storage shared by a group's lanes allocates and addresses as `Storage` does, over atomic bytes; it is not modelled apart.
- Offsets and sizes in layouts are unbounded; addressing is 64-bit; the layout of cyclic type tables is not modelled.
- Bits of floats are opaque in the codec; arithmetic on values is not modelled.
- The panic of slicing a word past eight bytes, for scalars wider than 64 bits, is an error value in `Codec`.
- In `Drawing` the texts of the eight places of a launch and of a refused page are parameters.
- What a native atomic stores is any function of the cell's value; its operations but addition are not spelt out.
- A page applies a fragment by replacing the first node with its id in document order; the rendering of trees to text and the morphing library are not modelled.
- Of a debugger tab only its status, running group, focused group, breakpoints and controls are modelled; of a lane's report only the line it stands on.
- In `Debugger` a stale control is possible after a brief wait that moves the focus; `Debugger.ParkedShowsResume` covers the detailed wait that follows.
- Launches with more than three dimensions never reach grid validation (src/ffi.rs:184) and are not modelled.

Not modelled at all: the C interface, compiling and linking programs, parsing of SPIR-V words and debug information, rectangle copies and mapped buffers, kernel arguments, the memory access checks, the HTTP server, the text of templates and logging. They are long tables and plumbing, with little state of their own to reason about.
