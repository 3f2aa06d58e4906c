# Verified model of a sans-IO worker runtime

The runtime drives many small tasks on a few worker threads. This project models its four linked parts and proves
what they promise, for all inputs, all runs and all interleavings.

**The task scheduler** (`BitVec`, `DynamicVec`, `TaskSwitcher`, `Tasks`, `TaskGroup`, `GroupDrains`, `TaskBranch`,
`SfuWorker`). A bitmap says which tasks must be polled. A group allocates slots to tasks, polls the flagged ones and
reports each newly empty task once; a branch puts a group under an outer bitmap; a worker drains two branches. A task
is an arbitrary state machine, given by function values (`TaskApi`). The meaning of a drain is the function
`Tasks.Stream`: flagged occupied slots in ascending order, each with its outputs and at most one empty event.
The methods are proved to hand out exactly this stream, head by head, with and without removal of emptied tasks.

**The publish/subscribe bus** (`DynamicDeque`, `BusLeg`, `LocalHub`, `BusTables`, `Worker`, `BusWorld`,
`BusAgreement`, `BusDelivery`, `BusGuarantees`, `BusProgress`). The classes follow the code. `BusWorlds.Next` is the
same system as a step relation over any number of workers, at the granularity of single lock acquisitions; it uses the
same functions (`Subscribed`, `TableSubscribed`, `Accepts`, `Oldest`, `Meaning`) that the classes are proved against.
`tag`, `pubs`, `accepted`, `receipts` and `events` are history, kept only to state what is delivered.

Where a method is proved equal to a function, a lemma beside it says what that function does without using it
(`SubscribedMeaning`, `SendEffect`, `MeaningAnnounces`, `PollReads`, `StreamAnswers` and the like).

**The wake-up protocol** (`PollingBackend`, `WakeProtocol`, `BusWake`). Producers, the flag, the token queue and the
worker's cycle as a step relation at every lock, load, store and push. `BusWakes` joins it with the bus: a bus run and a
protocol run that take their common steps, the pushes and receives of one leg, together.

**Controller, buffer and shared port** (`Spawning`, `Controller`, `Buffer`, `SharedUdpPort`, `SfuRegistry`). The
controller owns three buses of the classes above.

`Valid()` is the representation invariant of a class. `PopOutput(...) returns (out)` with `Some`/`None` stands for the
code's `Option`; where the code panics, the model has a precondition, or an `ok` result that is false.

## What the proofs found

Each of these is stated with the exact condition under which the code does what it should.

- A message that is in a leg before the worker installs its awaker makes that worker deaf for ever: wakes fire only when
  the queue goes from 0 to 1 (`WakeProtocol.LostWakeups`, `WakeProtocol.DeafRunExists`).
- `Buffer::ensure_front` moves the window `start` bytes too far when `0 < start < more`; the doc comment promises room in
  front only (`Buffers.FrontGrowthExactly`, `Buffers.FrontGrowthShift`).
- `set_task` on an occupied slot and `remove_task` on a vacant one break the task count
  (`TaskGroups.TaskGroup.SetTask`, `TaskGroups.TaskGroup.RemoveTask`). `set_task` returns the last index, not the one set.
- `process_whep_out` removes `TaskId::Whip(index)` from the shared port when whep task `index` is empty
  (`SfuRegistries.RunAgrees`, `SfuRegistries.WhepRemovalMisses`).
- `add_ufrag` keeps the port's maps inverse only for names and tasks that are not bound otherwise
  (`SharedUdpPorts.AddUfragKeeps`).
- Without a stack part a `DynamicDeque` never gives anything back, and `is_empty` looks at the stack part only
  (`DynamicDeques.DynamicDeque.PopFront`, `DynamicDeques.DynamicDeque.IsEmpty`).
- Loads are compared after a cut to 32 bits. A spawn leaves the spread at most max(spread, 1) if and only if the worker
  it picks is not a fullest one, or all are equal (`Spawning.SpawnSpreadExactly`; `Spawning.TruncationUnbalances` is an
  input for which it does not).

## Model

| member | source | states |
|---|---|---|
| BitVectors.BitVec.SetLen | src/collections/bit_vec.rs:17-22 | every stored bit survives a change of length, so a bit beyond the window can come back; only positions beyond the old byte capacity are sure to be clear |
| BitVectors.BitVec.GetBit | src/collections/bit_vec.rs:32-41 | byte and mask arithmetic decides membership in the set the vector stands for |
| BitVectors.BitVec.SetBit | src/collections/bit_vec.rs:43-56 | exactly one stored bit changes; on the set this is adding or removing one member |
| BitVectors.BitVec.FirstSetIndex | src/collections/bit_vec.rs:59-74 | the least member of the set, and nothing if and only if the set is empty |
| BitVectors.BitVec.SetAll | src/collections/bit_vec.rs:76-78 | all stored bits change, also those beyond the window |
| BitVectors.WithBitChangesOne | src/collections/bit_vec.rs:51-55 | the two mask operations change bit k of a byte and keep the other seven |
| BitVectors.UnpackUpdate | src/collections/bit_vec.rs:49-55 | replacing one byte at index / 8 changes only position index of the whole row of bits |
| DynamicVecs.DynamicVec.Get | src/collections/vec.rs:78-84 | the two tiers read as one sequence; None exactly beyond its end |
| DynamicVecs.DynamicVec.Set | src/collections/vec.rs:87-93 | one element of the joined sequence changes |
| DynamicVecs.DynamicVec.Push | src/collections/vec.rs:119-123 | appends to the joined sequence whichever tier takes the element |
| DynamicVecs.DynamicVec.Pop | src/collections/vec.rs:126-132 | takes the last element of the joined sequence |
| DynamicVecs.DynamicVec.Last | src/collections/vec.rs:134-140 | shows the last element of the joined sequence |
| DynamicVecs.DynamicVec.IsEmpty | src/collections/vec.rs:143-145 | right for every content if there is a stack part; without one it always says empty |
| DynamicDeques.DynamicDeque.PushBackStack | src/collections/dequeue.rs:63-65 | refused exactly when the whole queue holds STACK_SIZE elements or more, so it never overtakes the heap part |
| DynamicDeques.DynamicDeque.PushBack | src/collections/dequeue.rs:72-76 | appends to the joined queue whichever tier takes the element |
| DynamicDeques.DynamicDeque.PopFront | src/collections/dequeue.rs:83-92 | first in, first out over both tiers; without a stack part nothing ever comes out |
| DynamicDeques.DynamicDeque.IsEmpty | src/collections/dequeue.rs:99-101 | right when there is a stack part; without one it always says empty |
| DynamicDeques.DynamicDeque.Pop2 | src/collections/dequeue.rs:115-123 | the new element goes to the back and the front comes out, also on an empty queue |
| TaskSwitchers.TaskSwitcher.SetTasks | src/task/switcher.rs:117-119 | a changed number of tasks keeps every stored flag; new storage is clear |
| TaskSwitchers.TaskSwitcher.Current | src/task/switcher.rs:126-128 | the least waiting task, None if and only if none waits |
| TaskSwitchers.TaskSwitcher.FlagAll | src/task/switcher.rs:130-132 | every stored flag goes up, beyond the window, too |
| TaskSwitchers.TaskSwitcher.Finished | src/task/switcher.rs:135-137 | exactly this task leaves the waiting set |
| TaskSwitchers.TaskSwitcher.FlagTask | src/task/switcher.rs:139-141 | exactly this task joins the waiting set |
| Tasks.StreamSkip | src/task/group.rs:144-174 | slots that are vacant or not flagged contribute nothing to a drain |
| Tasks.QuietStream | src/task/group.rs:144-174 | with no flag up, a drain yields nothing and changes nothing |
| Tasks.StreamBySlots | src/task/group.rs:144-174 | for each slot, the outputs of a drain that carry its index are exactly that slot's part, in order, if it is live and flagged, and none otherwise; slots come out one after the other |
| Tasks.SlotStep | src/task/group.rs:145-155 | a step of the least flagged slot that hands out some outputs moves the whole drain by exactly these |
| Tasks.FinishSilently | src/task/group.rs:160-170 | lowering the flag of a slot with nothing to say changes neither what is still to come nor what will be left |
| Tasks.HandOutOutput | src/task/group.rs:148-149 | one output of the least flagged task is the head of the drain's stream |
| Tasks.HandOutEmptyEvent | src/task/group.rs:151-158 | so is its empty event, whether the caller then vacates the slot or leaves it |
| Tasks.TrimSameDrain | src/task/group.rs:94-96 | dropping vacant slots at the end touches neither outputs nor remaining tasks of a drain |
| TaskGroups.SubsetCardinality | src/task/group.rs:139-141 | a subset has as many elements as the set exactly when it is the set |
| TaskGroups.CountingEmptiness | src/task/group.rs:139-141 | the comparison of two counts holds if and only if every live task is marked empty |
| TaskGroups.FillCounts | src/task/group.rs:65-69 | filling a vacant slot adds one live task and no mark |
| TaskGroups.AppendCounts | src/task/group.rs:72-75 | so does a new slot at the end |
| TaskGroups.VacateCounts | src/task/group.rs:90-97 | vacating an occupied slot, vacant tail dropped, removes one live task and its mark |
| TaskGroups.WrongCounts | src/task/group.rs:85-93 | filling an occupied or vacating a vacant slot leaves the number of live tasks, so the unconditional count is wrong then |
| TaskGroups.PlacementCounts | src/task/group.rs:79-87 | placing a task adds one live task if and only if the slot was vacant |
| TaskGroups.SilentPoll | src/task/group.rs:151-167 | a poll without output leaves both drains, removing and not, as they were |
| TaskGroups.VacantPoll | src/task/group.rs:169-171 | so does clearing the flag of a vacant slot |
| TaskGroups.VisiblePoll | src/task/group.rs:148-158 | a poll with output takes exactly the head off both drains |
| TaskGroups.TaskGroup.AddTask | src/task/group.rs:63-76 | the first vacant slot, or a new last one; all other slots stay, the new slot's flag is what was stored for it, and the invariant holds |
| TaskGroups.TaskGroup.SetTask | src/task/group.rs:79-87 | the slot is filled, padded with vacant ones if needed; the invariant survives if and only if the slot was vacant; the result is the last index |
| TaskGroups.TaskGroup.RemoveTask | src/task/group.rs:90-98 | the slot is vacated and the vacant tail dropped, live indices do not move; the invariant survives if and only if the slot was occupied |
| TaskGroups.TaskGroup.HasTask | src/task/group.rs:58-60 | true exactly for live indices |
| TaskGroups.TaskGroup.TaskCount | src/task/group.rs:53-55 | the counter is the number of occupied slots |
| TaskGroups.TaskGroup.IsEmpty | src/task/group.rs:139-141 | true if and only if every live task has been reported empty |
| TaskGroups.TaskGroup.OnTick | src/task/group.rs:101-108 | every live task ticks once and keeps its note, vacant slots stay vacant, all flags go up |
| TaskGroups.TaskGroup.OnEvent | src/task/group.rs:111-116 | refused without effect exactly for an index that is not live; otherwise that task alone gets the event and its flag |
| TaskGroups.TaskGroup.OnShutdown | src/task/group.rs:119-127 | every live task is told once and keeps its note, vacant slots stay vacant, all flags go up |
| TaskGroups.TaskGroup.PopOutput | src/task/group.rs:144-174 | the loop ends for any tasks; None means no flag is left up; for finite tasks each call takes exactly the head off the drain's stream and keeps its tail and its final state |
| TaskGroups.TaskGroup.PollLeast | src/task/group.rs:145-172 | one round on the least flag: a visible one hands out the head of the drain, a silent one lowers this flag only and leaves the drain |
| TaskGroups.TaskGroup.PollSlot | src/task/group.rs:147-168 | state, mark, set of marked slots and flag after one poll of a task, case by case |
| GroupDrains.Drain | src/task/group.rs:144-174 | polling until None terminates and yields the whole stream of the start state; exactly the settled slots and no flag are left |
| GroupDrains.DrainRemoving | src/task/group.rs:90-174 | the same for a caller that removes a task on its empty event: exactly the newly empty tasks are gone |
| GroupDrains.MarkedStep | src/task/group.rs:144-174 | an output, followed by the removal if it is an empty event, is one step of the removing drain |
| GroupDrains.RemovalIndifference | src/task/group.rs:90-174 | removing and not removing yield the same outputs if and only if no flagged task speaks again after its empty event |
| GroupDrains.StaysReported | src/task/group.rs:151-166 | a task stays marked as long as no poll finds it busy |
| GroupDrains.EmptyEventsDoNotRepeat | src/task/group.rs:148-167 | strictly between two polls that hand out an empty event of one occupant lies a poll it answered with None although it was not empty, for any inputs and polls in between and any number of outputs |
| GroupDrains.HandsOutExactly | src/task/group.rs:147-168 | in any history of inputs and polls of one occupant: every output of the task comes out unchanged, and besides its empty event in exactly those polls that find it dry and empty, unless the last dry poll before has already found it empty |
| GroupDrains.SlotPolled | src/task/group.rs:148-167 | one poll is one step of the slot's part of a drain: it hands out its head, or ends it |
| GroupDrains.DrainIsPolls | src/task/group.rs:144-174 | a slot's part of a whole drain is a row of such polls, with the same outputs and the same final state; all but the last hand something out |
| TaskBranches.NoteTakenBack | src/task/switcher.rs:75-94 | a branch forgets having reported itself empty only in a poll that is dry and not empty |
| TaskBranches.NoteMeansLastFoundEmpty | src/task/switcher.rs:75-94 | the note a branch keeps says, in every row of polls, whether the last dry poll found the group empty |
| TaskBranches.ReportedExactly | src/task/switcher.rs:75-94 | a poll reports the branch empty if and only if it finds its group dry and empty and the last dry poll before has not |
| TaskBranches.ReportsDoNotRepeat | src/task/switcher.rs:75-94 | between two empty reports of a branch lies such a poll |
| TaskBranches.TaskSwitcherBranch.Input | src/task/switcher.rs:64-67 | the outer flag goes up before anyone can touch the group |
| TaskBranches.TaskSwitcherBranch.IsEmpty | src/task/switcher.rs:71-73 | true if and only if every live task of the group has been reported empty |
| TaskBranches.TaskSwitcherBranch.PopOutput | src/task/switcher.rs:75-94 | the outer flag goes down only with no inner flag up; the group's answer is passed on unchanged; emptiness is reported by the rule above |
| GroupDrains.RemovingAnswers | src/task/group.rs:144-174 | a poll, and the removal on an empty event, is one step of the removing drain |
| GroupDrains.PollRemoving | src/task/group.rs:90-174 | the two calls together, as a caller makes them |
| SfuWorkers.PollThrough | examples/sfu/mod.rs:420-436 | one round on a branch keeps every inner flag covered by the outer one and steps the removing drain |
| SfuWorkers.StreamAdvances | examples/sfu/mod.rs:414-439 | such a step takes exactly one element off the worker's stream, or none when it is silent |
| SfuWorkers.StreamAnswers | examples/sfu/mod.rs:258-297 | the worker's stream, without naming its definition: own outputs, then whip's unmarked outputs with kind whip and their index, then whep's with theirs, each in order and in place, no task output of the other kind or invented, Continue exactly for the marked ones |
| SfuWorkers.SfuWorker.constructor | examples/sfu/mod.rs:312-329 | an empty two-level hierarchy in which no object is shared |
| SfuWorkers.SfuWorker.ConnectWhip | examples/sfu/mod.rs:141-189 | the new whip task, unreported, in a slot that was not live, all other slots and the whep group untouched, flags still covered; an offer from which no task can be built changes nothing but the queued reply |
| SfuWorkers.SfuWorker.OnTick | examples/sfu/mod.rs:346-349 | every task of both groups ticks once and is flagged, nothing else about the slots changes, flags still covered |
| SfuWorkers.SfuWorker.OnShutdown | examples/sfu/mod.rs:441-443 | every task of both groups is told once and is flagged, nothing else about the slots changes, flags still covered |
| SfuWorkers.SfuWorker.OnWhipEvent | examples/sfu/mod.rs:370-377 | exactly the addressed task gets the event and its flag, an unknown index is dropped, flags still covered |
| SfuWorkers.SfuWorker.OneOfTwo | examples/sfu/mod.rs:420-422 | no other flag than those of the two branches exists; with both down nothing is flagged anywhere below |
| SfuWorkers.SfuWorker.PopOutput | examples/sfu/mod.rs:414-439 | terminates for any tasks; own outputs come out first and unchanged, for any tasks; None means that no flag is up anywhere in the hierarchy; otherwise the answer is exactly the head of the worker's stream, whose answers `StreamAnswers` determines |
| SfuWorkers.PopInner | src/worker.rs:285-289 | draining the worker terminates; own outputs come out first, in order; then, stated from the streams of the two groups alone, each unmarked task output with its kind, its index and its content, in order, and one Continue in the place of each marked one; exactly the tasks that are not newly empty are left |
| SfuWorkers.DryWorker | examples/sfu/mod.rs:414-439 | a worker with no output and no flag has nothing left to yield |
| BusLegs.PollingAwaker.Awake | src/backend/polling.rs:376-384 | the poller is notified if and only if the flag was down; afterwards the flag is up |
| BusLegs.QueueInternal.PushSafe | src/bus/leg.rs:37-46 | always appended; the reader is woken exactly when the queue was empty |
| BusLegs.QueueInternal.PushGeneric | src/bus/leg.rs:48-66 | an unsafe message is refused exactly on a queue of at least the capacity; the reader is woken exactly when the queue was empty and the message was taken |
| BusLegs.QueueInternal.PopFront | src/bus/leg.rs:68-70 | the oldest message; None exactly on an empty queue or one without a stack part |
| BusLegs.NothingOvertakes | src/bus/leg.rs:37-70 | in every interleaving, received followed by queued is the accepted sequence |
| BusLegs.TurnedAway | src/bus/leg.rs:48-66 | an operation was refused if and only if it was an unsafe send that met a full queue |
| BusLegs.AcceptedAreOffered | src/bus/leg.rs:37-70 | the accepted sequence is what was sent, in order, without the refused operations |
| BusLegs.LegIsLossyFifo | src/bus/leg.rs:37-112 | a leg under any interleaving of sends and receives is a lossy FIFO, and loses exactly the unsafe sends that met a full queue |
| LocalHubs.SubscribedMeaning | src/bus/local_hub.rs:20-28 | exactly one follower is added to one channel, at the end of its list, lists stay duplicate-free and non-empty, true if and only if the channel was unknown |
| LocalHubs.UnsubscribedMeaning | src/bus/local_hub.rs:31-50 | exactly one follower is taken from one channel, the last one taking its place in the list, true if and only if this makes the channel unknown |
| LocalHubs.BusLocalHub.Subscribe | src/bus/local_hub.rs:20-28 | the stored hub and the answer are those of the function whose meaning is proved above |
| LocalHubs.BusLocalHub.Unsubscribe | src/bus/local_hub.rs:31-50 | the stored hub and the answer are those of the function that takes one follower away; a channel whose list runs empty is dropped |
| Lists.SwapRemoveElements | src/bus/local_hub.rs:35-37 | `swap_remove` on a list without duplicates removes exactly that element and makes no duplicate |
| BusTables.TableSubscribedMeaning | src/bus.rs:149-156 | exactly one leg is added to one channel, at the end of its list, no list gets duplicates, all entries name existing legs |
| BusTables.TableUnsubscribedMeaning | src/bus.rs:158-165 | exactly one leg is taken from one channel |
| BusTables.OneCopyEach | src/bus.rs:167-187 | the loop over a duplicate-free list gives each listed leg exactly one copy, and no other leg any |
| BusTables.BusShared.NewWorker | src/bus.rs:44-56 | legs are numbered in order of creation; the new one is empty, the others are untouched |
| BusTables.BusWorker.Subscribe | src/bus.rs:149-156 | the shared table changes as the function whose meaning is proved above |
| BusTables.BusWorker.Unsubscribe | src/bus.rs:158-165 | the shared table changes as the function that takes one leg away; an emptied list stays in the table |
| BusTables.BusWorker.Publish | src/bus.rs:167-187 | both branches send one copy, marked with sender and channel, to each listed leg in list order |
| BusTables.BusWorker.Broadcast | src/bus.rs:130-143 | all three branches send one copy to every leg, the sender's own included |
| BusTables.BusWorker.Send | src/bus.rs:121-124 | one leg alone changes; the result is the new length if the message was taken, and None exactly if it was not |
| BusTables.BusShared.Send | src/bus.rs:67-70 | the same for the builder, with an external source |
| BusTables.BusWorker.Recv | src/bus.rs:104-106 | the oldest message of the own leg, no other leg changes; without a stack part there never is one |
| Workers.Worker.ProcessInnerOutput | src/worker.rs:291-334 | each output changes hub, table, queues and outgoing requests as the four effects below say: the table is told of first and last followers only |
| Workers.SendEffect | src/worker.rs:318-323 | a publish puts one copy, marked with leg and channel, at the end of exactly the listed legs that take it, a broadcast one at the end of every leg that takes it; safe copies are always taken, unsafe ones while the queue is shorter than the capacity; nothing else changes |
| Workers.SubscribeEffect | src/worker.rs:306-311 | exactly that owner joins exactly that channel in the hub, and the worker's leg joins the table's list exactly if the channel is new to the worker; nothing else changes |
| Workers.UnsubscribeEffect | src/worker.rs:312-317 | exactly that owner leaves exactly that channel in the hub, and the worker's leg leaves the table's list exactly if it was the only follower; nothing else changes |
| Workers.RequestEffect | src/worker.rs:297-332 | net actions, external messages and spawns append exactly their request, bus outputs none, and Continue changes nothing |
| Workers.Worker.PopInner | src/worker.rs:285-289 | terminates for a finite inner part and processes all its outputs in order |
| Workers.PoppedIsARow | src/worker.rs:285-289 | a drain of the inner part is a row of polls up to the first None, whose outputs take effect one after the other |
| Workers.RowRequests | src/worker.rs:285-334 | over such a drain, backend and controller get exactly the requests among the outputs, in order |
| Workers.Worker.HandToAll | src/worker.rs:257-267 | the listed owners get one event each, in list order, each followed by all outputs it causes |
| Workers.Worker.AwakeTurn | src/worker.rs:252-283 | one turn of the loop: the oldest message becomes one event for each task that follows its channel when it is taken off, whatever the outputs of the first events do to the hub; false exactly if there is none |
| Workers.TurnAnnounces | src/worker.rs:252-276 | a turn takes exactly the oldest message off the own leg and hands on exactly the events it announces in the hub of this moment: per follower in list order, or one for a broadcast |
| Workers.BroadcastTurn | src/worker.rs:270-276 | a turn on a broadcast is one event with its body and its origin modulo 2^16, followed by all outputs it gives rise to |
| Workers.HandedIsARow | src/worker.rs:257-267 | a row of events is handed on one by one, in order, each followed by a drain of the inner part |
| Workers.TurnKeeps | src/worker.rs:252-283 | a turn keeps hub and table in agreement and only bus messages on the leg, so the panic on other sources stays unreachable |
| Workers.Worker.OnAwake | src/worker.rs:252-283 | the whole loop, for every inner part for which it ends: its leg is empty then, hub and table agree, and the state is that of the turns in a row |
| Workers.ProcessedKeeps | src/worker.rs:305-324 | one output keeps hub and table in agreement, changes no other worker's listing, loses and reorders nothing on any leg, and puts only bus messages on legs |
| Workers.PoppedKeeps | src/worker.rs:285-289 | so do all outputs of a drain |
| Workers.HandedKeeps | src/worker.rs:252-283 | so does a whole row of events, whatever the inner part answers |
| BusAgreement.HubStep | src/worker.rs:306-316 | after the hub has changed the worker is mid-step for that one pair only |
| BusAgreement.TableStep | src/bus.rs:149-165 | the table change ends exactly this mid-step |
| BusAgreement.AgreementStep | src/worker.rs:291-334 | every act of any worker keeps the agreement |
| BusAgreement.SubscriptionsAgree | src/bus.rs:149-165 | in every reachable state, a leg is listed for a channel if and only if the worker's hub knows it, except for the pair the worker is mid-step on; lists have no duplicates, hubs no empty lists, all entries are existing legs |
| BusDelivery.FlowStep | src/worker.rs:252-268 | every act keeps: accepted is received followed by queued, and events handed out followed by pending ones are those the receipts stand for |
| BusDelivery.HandedAuthentic | src/bus.rs:167-187 | a copy on a leg stems from a send that has served that leg |
| BusDelivery.HandedInOrder | src/bus.rs:167-187 | handing over one copy keeps each sender's copies on a leg in sending order |
| BusDelivery.HandedArrived | src/bus.rs:167-187 | a safe send has arrived on every leg it has served |
| BusDelivery.TrafficStep | src/bus.rs:113-188 | every act of any worker keeps all three |
| BusDelivery.RunDelivers | src/bus.rs:113-188 | they hold in every reachable state of any number of workers |
| BusGuarantees.PublishGoesToFollowers | src/bus.rs:167-187 | a publish is recorded as such and goes to a leg if and only if its worker follows the channel at that moment, once each |
| BusGuarantees.BroadcastGoesToAll | src/bus.rs:130-143 | a broadcast is recorded as such and goes once to every worker that exists, the sender included, and to no other leg |
| BusGuarantees.NewWorkerIsFresh | src/bus.rs:44-56 | a new worker is the last one, follows nothing, has nothing waiting, and nobody else changes |
| BusGuarantees.FollowersHaveSubscribed | src/worker.rs:305-317 | in every run, a task is in its worker's hub under a channel if and only if it has subscribed to it and not unsubscribed since |
| BusGuarantees.OneCopyPerLeg | src/bus.rs:167-187 | a leg takes at most one copy of a send, none if the send did not go there, exactly one of a safe send that did |
| BusGuarantees.LostExactlyWhenFull | src/bus/leg.rs:48-66 | in every run, each leg a send has served was served in one step, and holds the copy if and only if the send was safe or the queue shorter than the capacity in that step |
| BusGuarantees.ReceivedInSendingOrder | src/worker.rs:252-253 | per sender and receiver, messages are received in sending order, each at most once |
| BusGuarantees.OnlyBusSources | src/worker.rs:277-280 | the panic on other sources cannot be reached in any run |
| BusGuarantees.ReceivedAt | src/worker.rs:252-267 | every receipt goes back to one receive of that worker, with as many receipts before it, and holds the head of the leg and the hub of that very moment |
| BusGuarantees.MeaningIsOneEventEach | src/worker.rs:255-268 | a channel message stands for exactly one event for each follower of that instant, in the hub's list order, and for nothing else |
| BusWorlds.MeaningAnnounces | src/worker.rs:255-276 | a received message stands for what its send is to become there: channel events to the listed followers in order, or one broadcast event |
| BusGuarantees.BroadcastIsOneEvent | src/worker.rs:270-276 | a broadcast stands for one event with its body and an origin below 2^16 that equals the sender modulo 2^16 |
| BusGuarantees.DeliveredEndToEnd | src/worker.rs:252-283 | a safe send is received exactly once by every worker it went to, and what it announces in the hub of the step of that receive stands together in the event log: one event per follower of that moment in list order, or one for a broadcast, after the events of everything received before |
| BusGuarantees.AcceptedIsDelivered | src/worker.rs:252-283 | the same for every copy a leg has taken, safe or not |
| BusGuarantees.SubscribersGetEvent | src/worker.rs:255-268 | the tasks whose event is in that block are exactly those that had subscribed to the channel, and not unsubscribed since, when the message was taken off the leg |
| BusProgress.NoDeadlock | src/bus.rs:130-187 | in every run, as long as some worker is between two of its locks, one of the workers can take its next step |
| BusProgress.IdleGoesOn | src/worker.rs:252-283 | an idle worker can hand out an event exactly if one is pending, take a message exactly if none is pending and one waits, and subscribe, unsubscribe and send at any time |
| BusWakes.JoinedIsCoupled | src/worker.rs:194-283 | along every joint run, what a leg has taken in, holds and has given is the same for bus and wake-up protocol, and only a worker inside on_awake has events left to hand out |
| BusWakes.PartnerExists | src/bus/leg.rs:88-107 | a push to the leg can join the protocol whenever the lock is free, a receive whenever the worker is inside on_awake, too |
| BusWakes.DeliveredByEndOfCycle | src/worker.rs:194-283 | a safe send that is over when a poll of the receiving worker returns, its awaker having been installed on an empty leg, has been received exactly once by the end of that cycle, and what it announces in the hub of the step of that receive has been handed out, together and in order |
| PollingBackends.SelectedSlot | src/backend/polling.rs:85-94 | the first vacant slot, or a new one at the end; occupied slots are not touched |
| PollingBackends.ActionKeepsSound | src/backend/polling.rs:216-355 | no action of a task can take the waker's slot or register anything under its key |
| PollingBackends.WakeTokenSurvives | src/backend/polling.rs:95-150 | a poll takes the wake token if and only if it reports Awake; the second pop after a failed receive can only hit socket tokens; None means that nothing is left queued |
| PollingBackends.CachedFirst | src/backend/polling.rs:96-98 | a cached event comes out first and unchanged, and no token is touched |
| PollingBackends.PollReads | src/backend/polling.rs:95-150 | with none cached: tokens are looked at from the front, one dropped for each that yields nothing, two for a failed receive from a UDP socket; the answer is the wake-up or the packet of the first that yields something, with its slot, its socket's owner and its length, or None exactly behind the last; a wake-up and a UDP packet use up their token, a TUN packet does not |
| PollingBackends.OpenedEffect | src/backend/polling.rs:216-355 | a socket that is opened and registered sits alone in a formerly vacant slot under its owner, its key is registered, and its result is the last cached event |
| PollingBackends.NotOpenedEffect | src/backend/polling.rs:216-355 | one that is not leaves all sockets in place |
| PollingBackends.ClosedEffect | src/backend/polling.rs:216-355 | closing vacates exactly a slot that holds a socket of that kind |
| PollingBackends.PollingBackend.constructor | src/backend/polling.rs:156-169 | slot 0 holds the waker and nothing is queued |
| PollingBackends.PollingBackend.PollIncoming | src/backend/polling.rs:182-199 | one wake token exactly if the flag was up, before the reported keys; afterwards the flag is down; fails exactly when the token queue is too small |
| PollingBackends.PollingBackend.PopIncoming | src/backend/polling.rs:95-150 | the loop computes the function whose safety is proved above |
| PollingBackends.PollingBackend.SelectSlotIndex | src/backend/polling.rs:85-94 | the loop finds the slot the lemma above describes |
| PollingBackends.PollingBackend.OnAction | src/backend/polling.rs:216-355 | sockets, cached events and registrations change as the function whose safety is proved above |
| WakeProtocol.InvStep | src/backend/polling.rs:182-199 | each step keeps the wake token safe, the token queue empty outside the drain, and the leg first-in-first-out |
| WakeProtocol.NoLostWakeStep | src/bus/leg.rs:37-66 | each step keeps a wake under way while the leg is not empty |
| WakeProtocol.DeafStep | src/bus/leg.rs:37-66 | a deaf worker stays deaf and receives nothing |
| WakeProtocol.RunKeepsInv | src/worker.rs:194-250 | the invariant holds in every run of worker cycles and producers |
| WakeProtocol.InstallDecides | src/worker.rs:175-175 | the moment the awaker is installed decides between the two |
| WakeProtocol.LostWakeups | src/worker.rs:167-187 | in every interleaving, wake-ups are lost if and only if the leg held a message when the awaker was installed; then nothing is ever received again |
| WakeProtocol.DeafRunExists | src/worker.rs:175-175 | a concrete run with one early message that ends deaf |
| WakeProtocol.OwesStep | src/worker.rs:194-283 | each step of a cycle keeps the worker's debt to look at the leg |
| WakeProtocol.NothingLeftBehind | src/worker.rs:194-283 | with the awaker installed on an empty leg, every message that is in the leg when a poll returns has been received when the cycle ends |
| WakeProtocol.NeverSleepsOnMessages | src/backend/polling.rs:371-384 | with the awaker installed on an empty leg, whenever the worker is about to poll while a message waits and no producer is inside the leg, its poller has already been notified |
| WakeProtocol.SomebodyCanGoOn | src/worker.rs:194-283 | a producer inside the leg can always go on, and the worker can go on if and only if it does not wait for such a producer and its token queue can take the reported keys |
| WakeProtocol.PollInSteps | src/backend/polling.rs:182-199 | from the poller's return to the drain, exactly the wake token, if the flag was seen up, and then the reported keys are queued |
| WakeProtocol.OnlyActionsOpen | src/backend/polling.rs:216-355 | sockets change by the worker's actions alone, and each action takes its full effect |
| WakeProtocol.TokenBecomesAwake | src/backend/polling.rs:95-150 | in every run the wake token leaves the queue only to become a visit to on_awake, and slot 0 stays the waker |
| Spawning.Best | src/controller.rs:148-154 | a worker of least load, and the first such |
| Spawning.BestIsUnique | src/controller.rs:148-154 | there is only one |
| Controllers.Controller.constructor | src/controller.rs:37-51 | three buses that share nothing; the controller has event leg 0 |
| Controllers.Controller.AddWorker | src/controller.rs:74-77 | the new legs of the three buses are control leg i, event leg i + 1 and inner leg i, in every run; nothing that waits anywhere is touched |
| Controllers.Controller.PickBest | src/controller.rs:148-154 | the scan finds the first worker of least load |
| Controllers.Controller.Report | src/bus.rs:121-124 | a worker's message reaches the controller's leg marked with that worker's own leg, so the next statistics update the sender's entry; a safe one always does |
| Controllers.Controller.Spawn | src/controller.rs:146-162 | exactly that worker's count and queue change |
| Controllers.Controller.SendToBest | src/controller.rs:185-200 | exactly that worker's queue changes, counts do not |
| Controllers.Controller.SendTo | src/controller.rs:176-183 | exactly the named worker's queue grows, by this message; the worker must exist, since the code panics at the leg table otherwise |
| Controllers.Controller.ShutDown | src/controller.rs:164-174 | every worker's queue gets one shutdown message, whatever its length |
| Controllers.Controller.CountRunning | src/controller.rs:206-212 | zero if and only if every worker has no task or is empty |
| Controllers.Controller.PopEvent | src/controller.rs:202-204 | outgoing messages come out in order, each once |
| Controllers.Controller.Process | src/controller.rs:108-144 | ends the run if and only if shut down with nobody running; otherwise asks every worker whose queue has room and handles all waiting messages in order, with the results stated in the next three rows; neither the panic nor an index error can be reached |
| Controllers.RoundMeaning | src/controller.rs:113-121 | in a round each worker whose queue has room gets exactly one question behind what waits there, no other queue changes, and all that waits is heard if the leg has a stack part |
| Controllers.OutputsInOrder | src/controller.rs:131-133 | the output grows by exactly the workers' outgoing messages, in order |
| Controllers.EntryIsLastStats | src/controller.rs:125-136 | each worker's entry is the statistics it sent last, plus one task for each spawn placed on it since |
| Controllers.QueuesGrowBySpawns | src/controller.rs:134-136 | each control leg grows by exactly the spawns placed on its worker, in order |
| Controllers.Controller.HandleWaiting | src/controller.rs:121-141 | the receive loop empties the controller's leg and handles each message once; each comes directly from an existing worker |
| Spawning.SpawnSpreadExactly | src/controller.rs:146-162 | a spawn leaves the difference between fullest and emptiest worker at most max(previous, 1) if and only if all are equal or the first worker of least truncated load is not a fullest one |
| Spawning.SpawnKeepsSpread | src/controller.rs:146-162 | while counts fit into 32 bits, a spawn always leaves that difference at most max(previous, 1) |
| Spawning.SpawnsKeepSpread | src/controller.rs:146-162 | so do any number of spawns between two reports; no count falls, none grows by more than the number of spawns |
| Spawning.TruncationUnbalances | src/worker.rs:90-93 | beyond 32 bits it can fail: a concrete input, by the exact condition |
| Spawning.NextInTurn | src/controller.rs:146-162 | after n spawns from idle, the next goes to worker n mod w |
| Spawning.SpawnsFillInTurn | src/controller.rs:146-162 | after n spawns on w idle workers, worker i has exactly (n + w - 1 - i) / w tasks |
| Buffers.FrontGrowthExactly | src/buffer.rs:204-210 | front growth keeps the content, for all contents, if and only if nothing is in front, or enough room is, or the window is empty and not past the middle |
| Buffers.FrontGrowthShift | src/buffer.rs:204-210 | in the remaining case the window shows the bytes `start` further right |
| Buffers.Buffer.EnsureFront | src/buffer.rs:204-210 | bytes and window after growth, and that content and room are right under the exact condition |
| Buffers.Buffer.EnsureBack | src/buffer.rs:213-219 | room at the back, content and existing bytes kept |
| Buffers.Buffer.PushFront | src/buffer.rs:230-234 | bytes and window afterwards, in all cases; content grows by the data in front under the exact condition; what it is, and whether the window is still inside the bytes, otherwise; when the copy panics, if and only if |
| Buffers.Buffer.PushBack | src/buffer.rs:236-240 | content grows by the data at the back, always; where the window lies then |
| Buffers.Buffer.PopBack | src/buffer.rs:242-252 | view and remaining content together are the old content; None exactly when it is too short |
| Buffers.Buffer.PopFront | src/buffer.rs:254-264 | likewise at the front, and the room in front grows |
| Buffers.Buffer.Truncate | src/buffer.rs:221-228 | the first bytes remain; refused without effect exactly when there are too few |
| Buffers.Buffer.MoveFrontRight | src/buffer.rs:266-272 | drops bytes in front; refused without effect exactly when there are too few |
| Buffers.Buffer.MoveFrontLeft | src/buffer.rs:274-280 | uncovers bytes in front; refused without effect exactly when there is no room |
| Buffers.Buffer.MoveBackRight | src/buffer.rs:282-288 | uncovers bytes at the back; refused without effect exactly when there is no room |
| Buffers.Buffer.MoveBackLeft | src/buffer.rs:290-296 | drops bytes at the back; refused without effect exactly when there are too few |
| Buffers.BufferView.View | src/buffer.rs:84-93 | a part of the content; only its right end is checked, so the view is proper if and only if its ends are in order |
| Buffers.BufferView.PopBack | src/buffer.rs:95-105 | the two views split the content |
| Buffers.BufferView.PopFront | src/buffer.rs:107-117 | the two views split the content |
| Buffers.Receive | src/backend/polling.rs:106-108 | a receive of up to 1500 bytes always fits and becomes the content, with 100 bytes of room in front |
| Buffers.OperateAll | src/buffer.rs:204-264 | for every sequence of pushes and pops at both ends in which each front growth is right, content and popped parts are those of a plain byte string and start <= end <= capacity is kept |
| Buffers.Operate | src/buffer.rs:204-264 | one such operation, and where the window lies afterwards |
| Buffers.UndoRestores | src/buffer.rs:230-264 | pushes in any order at both ends, popped in reverse order, give back their data and restore the byte string |
| Buffers.PushPopBack | src/buffer.rs:236-252 | pop after push at the back gives back the data and restores the content |
| Buffers.PushPopFront | src/buffer.rs:230-264 | so it does at the front under the exact growth condition |
| Buffers.PopPushFront | src/buffer.rs:230-264 | push after pop at the front restores the content, always |
| SharedUdpPorts.SharedUdpPort.AddUfrag | examples/sfu/shared_port.rs:41-45 | both directions are recorded, whatever was there |
| SharedUdpPorts.SharedUdpPort.RemoveTask | examples/sfu/shared_port.rs:47-57 | the maps change as the function whose meaning is proved below, on every path; on coherent maps the end is reached exactly for a task with remotes |
| SharedUdpPorts.SharedUdpPort.MapRemote | examples/sfu/shared_port.rs:59-76 | answer and maps are those of the functions whose meaning is proved below |
| SharedUdpPorts.AddUfragKeeps | examples/sfu/shared_port.rs:41-45 | the four maps stay mutually inverse if and only if neither the name nor the task is bound to something else |
| SharedUdpPorts.RemoveForgets | examples/sfu/shared_port.rs:47-57 | after a removal, also one that ends early, no map mentions the task, the maps are coherent and nothing changes for other tasks |
| SharedUdpPorts.MapRemoteKeeps | examples/sfu/shared_port.rs:59-76 | the maps stay coherent, mapped remotes keep their tasks, and the remote belongs to the found task from then on, whatever later datagrams carry |
| SharedUdpPorts.OwnerMeaning | examples/sfu/shared_port.rs:59-76 | a datagram belongs to a task if and only if the task lists its remote, or no task does and the task is registered under the user name it carries |
| SfuRegistries.StepAgrees | examples/sfu/mod.rs:250-308 | registered tasks and existing tasks stay the same set in every event if and only if it is not the end of a whep task |
| SfuRegistries.StaleForEver | examples/sfu/mod.rs:300-305 | what the end of a whep task leaves in the index is never removed by any later events |
| SfuRegistries.RunAgrees | examples/sfu/mod.rs:142-308 | a run leaves registered and existing tasks the same set if and only if no whep task ends in it |
| SfuRegistries.OwnerExists | examples/sfu/mod.rs:369-388 | as long as they are, a datagram only finds tasks that exist |
| SfuRegistries.ConnectedIsFound | examples/sfu/mod.rs:141-247 | a connected task is found by the name it was given, and from the first datagram that carries this name by the remote address alone |
| SfuRegistries.RemoteStays | examples/sfu/shared_port.rs:47-76 | a mapped remote keeps its task until, and only until, the whip task of that slot is removed, which the end of the whep task of the same slot does, too |
| SfuRegistries.WhepRemovalMisses | examples/sfu/mod.rs:300-305 | what the wrong task id leaves behind: the whep task's remotes still lead to it, the whip task of that slot is cut off, and reuse of the slot makes the maps contradict each other |

## Left out

- Threads, time, sleeping, statistics of cycle time and logging: workers are interleaved by step relations, and the time is an opaque value.
- Relaxed atomics: the flag's loads and stores are interleaved as if memory were sequentially consistent.
- Sockets, tun devices and the operating system's poller: outcomes of opening, registering, waiting and receiving are inputs. `registered` only grows, so a deregistered key may still be reported, which admits more runs.
- src/backend/poll.rs: its awaker does nothing and its slot choice repeats the backend that is modelled.
- BusSystemBuilder's own sends on the inner bus (External source): nothing in the runtime makes them; `BusWorlds.Next` has no such step. On the control bus they are modelled.
- Workers.Worker.OnAwake: a task may publish to its own worker for ever, then the loop does not end; `turns` says after how many turns it does. Interleaved with other workers, its turns are the steps Receive and Deliver of `BusWorlds.Next`.
- Workers.Worker.PopInner: requires an inner part with finitely many outputs ready; with an infinite one the code never returns.
- GroupDrains.Drain: requires tasks with finitely many outputs ready at one time, otherwise a drain has no end. `TaskGroups.TaskGroup.PopOutput` itself needs no such thing.
- Worker::process as one method: its control loop, tick and the order of its phases appear as the cycle of `WakeProtocol.Next` only; requests to backend and controller are recorded in order by `Workers.Worker` and not carried out.
- Controllers.Controller.Process: messages that arrive while its loop runs are not modelled, the waiting messages are those at its start; the output queue is a plain sequence.
- Legs without a stack part in `WakeProtocol`: there every receive finds the oldest message. The other models of a leg cover that case: nothing is ever received.
- Shutdown completeness: `process` decides by the workers' last statistics, which may be stale.
- SfuWorkers.SfuWorker.ConnectWhip: the shared port is not a field of the class; `SfuRegistries` models what connecting and removing do to it. connect_whep and the whep arm of on_event mirror the whip ones and are left out, as are HTTP and SDP.
- Whip and whep tasks, STUN parsing, str0m: the tasks of both groups are arbitrary state machines of one type, and a datagram carries an optional user name.
- Writing to the public `task` field of a branch: it bypasses the outer flag, so the coverage of flags would not hold.
- Tasks are deterministic: the output of a poll is a function of state and time.
- Buffer::from_vec_raw with a range whose start is after its end, front_mut, back_mut and remain_mut, which hand out raw slices.
- The `group_task!` macro and the drain loops of the other examples: weaker copies of what is modelled.
- Machine integers other than the 32-bit load and the 16-bit origin of a broadcast: lengths, indices and counters are unbounded.
