# Verified models of the kernel and the train programs

This project models the hard core of a train-control system for the ARM: the microkernel (tasks, ready
queues, send queues, events, task ids), the route planner on its binary heap, the clock, reservation and
byte servers, positions on the track, and the number printer and parser. It proves what their operations do
and what every run of them keeps. `dafny verify dfyconfig.toml` checks all of it.

Code that changes state is modelled as classes whose methods do the same steps on the same fields; code made
of expressions is modelled as functions. Where a method is specified by a function of the old state, the
properties the source is for are proved about that function.

## The kernel

* `TaskQueue` has the circular lists that are threaded through the task descriptors. What the pointer writes
  do is stated on the table of all `next` and `prev` pointers; a sequence of tasks is a `Ring` in it when the
  `next` pointers close a cycle through the tasks in order and the head points back to the last one. Other
  backward pointers may be stale: `Pass` registers the running task, which `schedule` then registers again,
  so that it is its own `prev`. `QueueBank` has the same writes on references in the heap.
* `Scheduler` puts 64 such queues beside the two-word bitmap of the nonempty ones; `Bitmap` has the words,
  with count-leading-zeros.
* `KernelModel` says what each system call, interrupt and turn of the loop around `schedule` does to the
  whole state, pointers included, as functions. `Kernel` has the operations themselves, on descriptors,
  queues, bitmaps and tables updated in place, and proves that they compute those functions. The kernel's own
  assertions about the states of tasks are assertions there, and none of them can fail but two: schedule stops
  the kernel when nobody can run while somebody waits for an event, and so does an armed event that fires
  without a task. The assertions about stacks and registers are not modelled.
* `KernelQueues`, `KernelLinks` and `KernelInvariant` prove what every run keeps: a task's state fixes where it
  is queued, the pointers link what the ready queues hold, the events are counted right, and task ids are
  accounted for. `KernelKill` and `KernelUnlink` are about the end of a task.
* `KernelEffects` says of each call and interrupt what the whole state is afterwards, without the operations
  that lead there, and of each turn how it begins and closes. `KernelReturns` follows a task from a call to
  its return over whole runs: what Send, Receive and AwaitEvent come back with, and that it is left alone until
  its next turn. `KernelSchedule`, `KernelHistory` and `KernelOutcomes` draw the consequences for scheduling,
  task ids, the order of messages, and callers.

A run is a sequence of turns: pick a task, let it make one call or be interrupted once, register it again.
Outside the runs are the two stops, and `Kill` where it does damage.

`Kill` follows the victim's pointers with `REMOVE` whether or not the victim is on its ready queue. It is
proved exactly when that is right for a live victim (`KernelUnlink.KillKeepsExactly`): all queues are in
order afterwards if and only if

* the victim does not wait to send to another task, on whose send queue it would stay
  (`KernelKill.KilledSenderStaysQueued`);
* it is on its ready queue, or that queue does not have exactly one task, which would be lost
  (`KernelKill.KillLosesTask`);
* if two or more tasks are on that queue and the victim is one of them, its `prev` is right. One that called
  `Pass` behind other tasks has itself as `prev` and stays queued though it is dead
  (`KernelUnlink.PassedIsStale`, `KernelUnlink.StaleVictimStays`);
* if two or more tasks are on that queue and the victim is not, joining its old neighbours disturbs no ring.
  It does not if they are still the last task and the head (`KernelUnlink.NeighboursUnlink`); it can cut live
  tasks off (`TaskQueue.RemoveCutsOff`, with an input in `TaskQueue.RemoveCutsOffExample`). A ring whose last
  task is made to lead elsewhere is closed again if a task of that priority waits to send to the victim,
  because `clear_send_queue` registers it behind that last task.

`tid_t` is `int16_t`, but on the target `lib/tstdlib.h` defines that as a 32-bit integer, so task ids up to
63999 are not truncated.

## The train programs

* `PriorityQueue` is the heap; `ShortestPath` and `RoutePlanner` prove that `plan_route` finds a shortest
  route whenever the end is less than 1E8 mm away, and fails otherwise. The route buffer must have one slot
  more than a shortest route has nodes, which `MAX_ROUTE_LENGTH` slots give on every track with fewer nodes.
* `RouteDistance` has the walks over a finished route and `Router` the choice between both directions.
  `route_length` takes the straight edge wherever both edges of a branch lead to the next node; it exceeds the
  planner's distance by exactly what those straight edges are too long. The router can therefore keep the
  longer of two routes (`Router.LongerRouteChosen`), but not if the rejected one has no such edge.
* `TrackSearch` has the bounded depth-first searches, which must agree with the planner.
* `TrackLocation` moves positions forwards and backwards. `location_canonicalize` ends on all positions
  exactly if there is no cycle of edges measured as zero under the given turnouts. `location_rebase` steps
  back at least once, even from a position that needs no rebasing. Both conserve the position by the
  program's own measurements; on the track itself they do, edge by edge, exactly where the distance search
  measures the edges right, and it is proved when it does.
* `ClockServer`: a `Delay` wakes its caller exactly on time as long as the deadlines fit in 32 bits; one that
  does not is due with the next tick. That a waiting client cannot ask again, on which the size of the wait
  queue rests, is what `KernelHistory.SilentUntilAnswered` says of any task whose Send has been received.
* `ReservationServer`: the symmetric matrix is a table of locks on physical edges.
* `ByteServers` and `RingBuffer`: nothing is lost, reordered or made up.
* `Numerals`: what is printed is read back. `a2i` compares with `>` where `>=` was meant and so takes the
  digit equal to the base; it is proved when that makes a difference.

Tracks are arbitrary: a node has a kind, its reverse and up to two edges with non-negative lengths to nodes
of the track. Searching, planning and moving forwards assume nothing about reverses. `location_rebase` and
the router need them to be nodes of the track; that reversing twice gives the node back is assumed for the
reservations, and for rebasing together with the way back leading back.

## Model

| member | source | states |
|---|---|---|
| TaskQueue.EnqueueRing | kernel/src/queue.h:43-58 | the pointer writes close the ring around the sequence with the new task at its end, or around the same sequence if the task was the last one already |
| TaskQueue.DequeueRing | kernel/src/queue.h:60-78 | the pointer writes leave a ring around all but the first task, headed by the second |
| TaskQueue.EnqueueAgain | kernel/src/queue.h:52-57 | registering the last task again changes one pointer: its own prev, to itself |
| TaskQueue.EnqueueDoublyLinks | kernel/src/queue.h:43-58 | enqueueing a task that is off the queue keeps all backward pointers right |
| TaskQueue.DequeueDoublyLinks | kernel/src/queue.h:60-78 | dequeueing keeps all backward pointers right |
| TaskQueue.JoinedRing | kernel/src/queue.h:87-88 | the two pointer writes of REMOVE leave a ring as it is if and only if the two tasks are neighbours on it, or are not where they matter |
| TaskQueue.RemoveRing | kernel/src/queue.h:80-93 | on a queue of two or more REMOVE leaves a ring of all tasks but the given one if and only if a member has a right backward pointer, or a task that is not a member points where it does no harm; the head is right in any case |
| TaskQueue.RemoveFails | kernel/src/queue.h:80-93 | a task that was registered twice in a row stays on the ring when it is removed |
| TaskQueue.RemoveCutsOff | kernel/src/queue.h:80-93 | a task that is not on the ring, but points back at one task and forward at one further on, cuts off exactly the tasks between them |
| TaskQueue.RemoveCutsOffExample | kernel/src/queue.h:80-93 | with tasks 1 and 2 queued, 1 taken off and 3 queued, removing 1 leaves 2 alone |
| QueueFacts.EnqueuedMembers | kernel/src/queue.h:43-58 | exactly one task is added, and the tasks stay distinct |
| QueueFacts.TailMembers | kernel/src/queue.h:60-78 | exactly the first task leaves |
| QueueFacts.RemovedMembers | kernel/src/queue.h:80-93 | from a longer queue exactly the given task leaves, from a queue of one everything |
| QueueBank.Bank.Length | kernel/src/queue.h:21-32 | walking the ring until it comes back to the head counts every task once |
| QueueBank.Bank.HasOneElement | kernel/src/queue.h:38-41 | tells whether the head is its own successor |
| QueueBank.Bank.Enqueue | kernel/src/queue.h:43-58 | the writes through the references are those of the pointer table, for the tasks of all queues |
| QueueBank.Bank.Dequeue | kernel/src/queue.h:60-78 | the same, with the first task or null as the result |
| QueueBank.Bank.Remove | kernel/src/queue.h:80-93 | the same, for a task on the queue or not, with whatever neighbours |
| QueueBank.Bank.Detach | kernel/src/multitasking/task.c:55-56 | a new task has null pointers, and all others keep theirs |
| Bitmap.SetBitHas | kernel/src/multitasking/scheduler.c:63-67 | setting a bit sets that bit and no other |
| Bitmap.ClearBitHas | kernel/src/multitasking/scheduler.c:68-73 | clearing a bit clears that bit and no other |
| Bitmap.NonzeroHasHighest | kernel/src/multitasking/task.c:22-24 | a nonzero word has a highest bit, so count-leading-zeros is defined on it |
| Scheduler.BitmapFindsHighest | kernel/src/multitasking/scheduler.c:36-46 | if the bits mark exactly the nonempty queues, the two words and count-leading-zeros give the highest nonempty queue |
| Scheduler.Scheduler.SetNonempty | kernel/src/multitasking/scheduler.c:62-74 | changes the bit of one priority only, across the split into two words |
| Scheduler.Scheduler.Register | kernel/src/multitasking/scheduler.c:27-34 | enqueues at a priority in range and fails at any other; the bitmap stays exact |
| Scheduler.Scheduler.NextTask | kernel/src/multitasking/scheduler.c:36-50 | returns and removes the first task of the highest nonempty queue, or reports that all are empty; the bitmap stays exact |
| Scheduler.Scheduler.Deregister | kernel/src/multitasking/scheduler.c:52-60 | removes from the queue of the priority; the bitmap stays exact |
| KernelModel.HighestReady | kernel/src/multitasking/scheduler.c:36-47 | the queue found is nonempty and all of higher priority are empty |
| KernelModel.NextAvailable | kernel/src/multitasking/task.c:22-24 | the tid found is available and all lower ones are not |
| KernelModel.Filled | kernel/src/multitasking/messaging.c:10-17 | the buffer gets exactly the first bytes of the message that fit and is otherwise as it was |
| KernelQueues.RegisterMoves | kernel/src/multitasking/schedule.c:55-58 | registering a task that is on no ready queue puts it on that of its priority and moves nobody else |
| KernelQueues.RegisterAgainStays | kernel/src/multitasking/schedule.c:45-51 | registering the last task of a queue again moves nobody and leaves the queue as it was |
| KernelQueues.CreateKeeps | kernel/src/syscall/syscall.c:3-29 | Create keeps all queues matching the task states |
| KernelQueues.OfferKeeps | kernel/src/multitasking/messaging.c:29-43 | Send to a dead, a waiting or a busy receiver keeps all queues matching the task states |
| KernelQueues.SendKeeps | kernel/src/syscall/syscall.c:81-92 | the same for the system call, with tids that are not valid |
| KernelQueues.ReceiveKeeps | kernel/src/multitasking/messaging.c:45-53 | Receive keeps it, with and without a waiting sender |
| KernelQueues.ReplyKeeps | kernel/src/multitasking/messaging.c:55-73 | Reply keeps it in all its cases |
| KernelQueues.AwaitKeeps | kernel/src/events.c:20-34 | AwaitEvent keeps it; a slot is only filled when it is free |
| KernelQueues.FireKeeps | kernel/src/events.c:36-54 | a fired event moves its task from the slot to its ready queue and nobody else |
| KernelQueues.PickKeeps | kernel/src/multitasking/schedule.c:18-39 | the picked task was runnable, as schedule asserts, and is then on no queue |
| KernelQueues.FinishKeeps | kernel/src/multitasking/schedule.c:45-51 | after its turn a task that can go on is on its ready queue again, and any other where its state says |
| KernelQueues.PassKeeps | kernel/src/syscall/syscall.c:47-49 | registering twice leaves every ready queue with the same tasks in the same order as registering once |
| KernelKill.DismissKeeps | kernel/src/syscall/syscall.c:57-67 | clear_send_queue ends with an empty queue, all its senders on the ready queues of their priorities, and everybody else in place |
| KernelKill.ExitKeeps | kernel/src/syscall/syscall.c:69-73 | Exit keeps all queues matching the task states |
| KernelKill.KilledSenderStaysQueued | kernel/src/syscall/syscall.c:121-141 | a victim that waits to send to another task is dead and still on the send queue afterwards |
| KernelKill.KillLosesTask | kernel/src/syscall/syscall.c:132-135 | a victim that is on no ready queue takes the only task of its priority off the ready queue: that one is runnable and queued nowhere |
| KernelKill.KillSeparates | kernel/src/syscall/syscall.c:121-141 | after Kill of a live task the queues hold the right tasks if and only if the victim does not wait to send to another task, and is on its ready queue or that queue does not have exactly one task |
| KernelLinks.RegisterLinks | kernel/src/multitasking/schedule.c:55-58 | registering a task that is last on its ready queue or on none keeps all ready queues linked |
| KernelLinks.PickLinks | kernel/src/multitasking/scheduler.c:36-50 | taking the first task of the highest ready queue keeps all of them linked |
| KernelLinks.PassLinks | kernel/src/syscall/syscall.c:47-49 | registering the running task twice keeps all ready queues linked |
| KernelLinks.CreateLinks | kernel/src/multitasking/task.c:41-60 | nulling the pointers of a new task and registering it keeps all ready queues linked |
| KernelLinks.DismissLinks | kernel/src/syscall/syscall.c:57-67 | registering the senders of a dead task keeps all ready queues linked |
| KernelUnlink.DismissMends | kernel/src/syscall/syscall.c:57-67 | registering the senders of a dead task closes a ring whose last task leads elsewhere if one of them has its priority |
| KernelUnlink.DismissDoesNotMend | kernel/src/syscall/syscall.c:57-67 | it mends no other broken ring |
| KernelUnlink.KillUnlinks | kernel/src/syscall/syscall.c:121-141 | after Kill of a live task the ready queues are linked if and only if a member of a longer queue has a right backward pointer, or a victim on no queue disturbs no ring but one that a dismissed sender closes again |
| KernelUnlink.KillKeepsExactly | kernel/src/syscall/syscall.c:121-141 | Kill of a live task leaves all queues in order, both in what they hold and in how they are linked, if and only if both conditions hold |
| KernelUnlink.NeighboursUnlink | kernel/src/syscall/syscall.c:133 | a victim on no queue whose neighbours are still the last task and the head of its ready queue does no harm |
| KernelUnlink.PassedIsStale | kernel/src/syscall/syscall.c:47-49 | a task that calls Pass with others on its ready queue ends up last on it with itself as prev |
| KernelUnlink.StaleVictimStays | kernel/src/syscall/syscall.c:133 | killing such a task leaves it on the ring of its ready queue, dead |
| KernelInvariant.CreateKeepsTids | kernel/src/multitasking/task.c:41-60 | the descriptor that Create takes is a zombie, as task_init asserts; a slot stays available exactly while it is dead and its generation below 1000 |
| KernelInvariant.RetireKeepsTids | kernel/src/multitasking/task.c:167-190 | a dead slot becomes available again unless its generations are used up |
| KernelInvariant.SetStateCounts | kernel/src/multitasking/task.c:156-165 | tasks_event_blocked stays the number of event-blocked tasks |
| KernelInvariant.FireKeepsEvents | kernel/src/events.c:36-54 | the task of a fired event still has the result AwaitEvent left, as event_handle asserts |
| KernelInvariant.KillKeepsEvents | kernel/src/syscall/syscall.c:121-141 | killing an event-blocked task keeps the count of them |
| KernelInvariant.StepPreserves | kernel/src/multitasking/schedule.c:17-53 | every turn, with any call or interrupt but a Kill that does damage or an event nobody waits for, keeps queues, links, task ids and event counts |
| KernelInvariant.EveryRunKeeps | main.c:95-104 | every run of such turns from the first task on keeps all of it |
| KernelSchedule.StateFixesPlace | kernel/src/multitasking/schedule.c:17-53 | between turns a task is on a ready queue, a send queue or in an event slot exactly as its state says, and on each once |
| KernelSchedule.PickIsHighest | kernel/src/multitasking/schedule.c:17-24 | the picked task is runnable, first of its queue, and no runnable task has a higher priority |
| KernelSchedule.ScheduleReturnsFalse | kernel/src/multitasking/schedule.c:18-25 | schedule returns false if and only if every live task is blocked on a message, and stops the kernel if and only if nobody is runnable but somebody waits for an event |
| KernelSchedule.EventsCounted | kernel/src/multitasking/task.c:156-165 | tasks_event_blocked is the number of event-blocked tasks and of taken slots, at most 5 |
| KernelSchedule.NobodyOvertakes | kernel/src/multitasking/schedule.c:17-53 | in every turn the tasks of a priority keep their order, and those registered in it are behind them |
| KernelSchedule.NewTid | kernel/src/multitasking/task.c:47-49 | the tid that Create returns is that of a new runnable task of the given priority in the slot tid mod 64, and it will not be given out again |
| KernelSchedule.TidsAreDistinct | kernel/src/syscall/syscall.c:3-29 | all tids created in a run are distinct, between 1 and 63999, and never of slot 0 |
| KernelHistory.CallConserves | kernel/src/multitasking/messaging.c:3-53 | for every call and receiver: letters pending and sent are letters delivered, refused and pending, in this order |
| KernelHistory.DeliveredInOrder | kernel/src/multitasking/messaging.c:3-53 | in every run, a receiver that does not die gets the letters in the order of the Sends: the delivered ones are a prefix, the rest waits on its queue |
| KernelHistory.DeliveryArrives | kernel/src/multitasking/messaging.c:3-27 | a delivered letter is what the receiver gets: the bytes that fit, the length or -1 if truncated, and the tid of the sender |
| KernelHistory.CallOwes | kernel/src/multitasking/messaging.c:55-73 | a delivered Send is owed one reply, until a Reply succeeds or the sender dies |
| KernelHistory.EverySendIsAnsweredOnce | kernel/src/multitasking/messaging.c:55-73 | in every run the delivered Sends of a task that does not die are as many as the successful Replies to it, but for the one it still waits for |
| KernelHistory.SilentUntilAnswered | kernel/src/multitasking/messaging.c:3-73 | in every run, a task whose Send has been received has no turn until it is answered or killed |
| KernelOutcomes.ReplyOutcome | kernel/src/multitasking/messaging.c:55-73 | -2 exactly for a slot without a live task, -3 exactly for one that awaits no reply, -1 exactly if truncated; -2 and -3 change nobody but the caller |
| KernelOutcomes.SendOutcome | kernel/src/syscall/syscall.c:81-92 | Send to a slot without a live task returns -2 and changes nobody but the caller; in all other cases the caller is blocked |
| KernelOutcomes.ReceiveOutcome | kernel/src/multitasking/messaging.c:45-53 | Receive waits exactly if nobody waits to send; otherwise the longest waiting sender awaits a reply, and nobody else is affected |
| KernelOutcomes.AwaitOutcome | kernel/src/events.c:20-34 | -1 exactly for a bad event, -3 exactly for a taken one; otherwise the caller is blocked in the slot, which is armed |
| KernelOutcomes.FireOutcome | kernel/src/events.c:36-54 | the task in the slot gets the data and can run, the slot is free and still armed, nobody else is affected |
| KernelOutcomes.DismissAnswers | kernel/src/syscall/syscall.c:57-67 | the Send of everyone on the queue fails with -2 |
| KernelOutcomes.ExitOutcome | kernel/src/syscall/syscall.c:69-73 | the caller dies, the Sends of those waiting for it fail with -2, and nobody else is affected |
| KernelOutcomes.KillOutcome | kernel/src/syscall/syscall.c:121-141 | the victim dies, the Sends of those waiting for it fail with -2, and nobody else is affected |
| KernelEffects.CreateHasEffect | kernel/src/syscall/syscall.c:3-29 | with no free slot the caller gets -2, else with a bad priority -1, and nothing else changes; else the lowest free slot gets the new descriptor, last on its ready queue, and the caller its tid |
| KernelEffects.ExitHasEffect | kernel/src/syscall/syscall.c:57-73 | the caller is dead and its slot free while its generations last; those waiting to send to it can run with -2, each behind all others of its priority and in the order of the send queue; every other descriptor, queue and slot is as it was |
| KernelEffects.PassHasEffect | kernel/src/syscall/syscall.c:47-49 | the caller is last on its ready queue and no descriptor changes |
| KernelEffects.SendHasEffect | kernel/src/syscall/syscall.c:81-92 | to a dead slot the caller gets -2; a waiting receiver gets the bytes that fit, the length or -1, and the tid, and can run; any other has the caller last on its send queue; in each case the descriptor of the caller has the arguments of the call, its reply buffer included, and all others are as they were |
| KernelEffects.ReceiveHasEffect | kernel/src/multitasking/messaging.c:45-53 | with nobody waiting the caller waits with its buffer; else it gets the letter of the first waiting sender, which waits for a reply with its own buffer as it was |
| KernelEffects.ReplyHasEffect | kernel/src/multitasking/messaging.c:55-73 | to a dead slot the caller gets -2, to a task that waits for no reply -3; else that task gets the bytes that fit its buffer and the length or -1, and the caller 0 or -1 |
| KernelEffects.AwaitHasEffect | kernel/src/events.c:20-34 | the caller gets -1 for a bad event and -3 for a taken slot; else it waits in the slot, which is armed |
| KernelEffects.KillCallHasEffect | kernel/src/syscall/syscall.c:121-141 | the caller gets -2 for its own tid and -1 for a negative tid that is no multiple of 64; else whoever lives in slot tid mod 64 ends as in Exit, is off its ready queue and its event, and the caller gets 0 |
| KernelEffects.InterruptHasEffect | kernel/src/interrupt.c:142-146 | the task in the slot of the event gets the data, can run, is last of its priority, and the slot is free; the interrupted task and every other are as they were, and with no event or an empty slot nothing changes |
| KernelEffects.CallHasEffect | kernel/src/interrupt.c:205-263 | each call and interrupt has its own effect on the whole state, and queries return their value to the caller |
| KernelEffects.GoesOnUnless | kernel/src/events.c:36-54 | the kernel stops exactly at an armed event with an empty slot; apart from that only Kill of a dead slot is not modelled |
| KernelEffects.FirstTask | main.c:95-99 | after boot the only live task is in slot 1, runnable, and alone on its ready queue |
| KernelEffects.PickBegins | kernel/src/multitasking/schedule.c:17-39 | a turn takes the first task of the highest nonempty ready queue and changes nothing of it but its state |
| KernelEffects.TurnHasEffect | kernel/src/multitasking/schedule.c:17-53 | every turn is that, the effect of the call, and the task put last on its ready queue if it can go on, with its result and buffer |
| KernelEffects.InterruptWakes | kernel/src/multitasking/schedule.c:17-53 | over a whole turn with an interrupt only the woken descriptor changes, the woken task is behind all others of its priority but the interrupted one, and that one is last |
| KernelReturns.TurnLeavesRunnable | kernel/src/multitasking/schedule.c:17-53 | a runnable task is left as it is in every turn of another unless it is killed |
| KernelReturns.KeptUntilTurn | kernel/src/multitasking/schedule.c:17-53 | in every run a task keeps the result and buffer of its last call until its next turn |
| KernelReturns.SendIsKept | kernel/src/multitasking/messaging.c:29-53 | in every run a task that is in a Send keeps the message and reply buffer of that Send |
| KernelReturns.SendComesBack | kernel/src/multitasking/messaging.c:29-73 | in every run a Send comes back with the bytes of the Reply that fit the buffer given to it and the right results for both sides, or with -2 and an untouched buffer when the receiver dies, or its task is killed |
| KernelReturns.ReceiveComesBack | kernel/src/multitasking/messaging.c:3-53 | in every run a waiting Receive comes back with the bytes of the next message that fit the buffer given to it and the tid of the sender, or its task is killed |
| KernelReturns.AwaitComesBack | kernel/src/events.c:20-54 | in every run AwaitEvent comes back with the data of the next interrupt of that event, or its task is killed |
| Kernel.InitialTids | kernel/src/multitasking/task.c:14-20 | the initial bitmap has all tids but 0 |
| Kernel.ClzFindsTid | kernel/src/multitasking/task.c:22-24 | count-leading-zeros on the reversed bitmap gives the lowest available tid |
| Kernel.ClearAvailable | kernel/src/multitasking/task.c:49 | clearing the mask of a tid makes that one unavailable and no other |
| Kernel.SetAvailable | kernel/src/multitasking/task.c:188-189 | setting the mask of a tid makes that one available and no other |
| Kernel.Microkernel.constructor | kernel/src/multitasking/task.c:14-20 | after setup nothing is queued, nobody lives, and all tids but 0 are available |
| Kernel.Microkernel.SetState | kernel/src/multitasking/task.c:156-165 | changes the state and the count of event-blocked tasks as the model says; its two assertions hold |
| Kernel.Microkernel.Retire | kernel/src/multitasking/task.c:167-190 | the slot dies and becomes available as the model says |
| Kernel.Microkernel.RegisterTask | kernel/src/multitasking/schedule.c:55-58 | registers the task as the model says; the task is no zombie |
| Kernel.Microkernel.TransmitMessage | kernel/src/multitasking/messaging.c:3-27 | copying, results and states are those of the model |
| Kernel.Microkernel.Offer | kernel/src/multitasking/messaging.c:29-43 | the three cases of send do to descriptors and linked queues what the model says; what that is, KernelEffects.SendHasEffect fixes |
| Kernel.Microkernel.Send | kernel/src/syscall/syscall.c:81-92 | Send on the linked queues does what the model says |
| Kernel.Microkernel.Receive | kernel/src/syscall/syscall.c:94-100 | Receive on the linked queues does what the model says |
| Kernel.Microkernel.Reply | kernel/src/syscall/syscall.c:102-113 | Reply on the linked queues does what the model says |
| Kernel.Microkernel.TaskInit | kernel/src/multitasking/task.c:41-60 | the new descriptor, tid and queue pointers are those of the model |
| Kernel.Microkernel.Create | kernel/src/syscall/syscall.c:3-29 | Create does what the model says and returns the tid, -2 or -1 |
| Kernel.Microkernel.Pass | kernel/src/syscall/syscall.c:47-49 | Pass registers the running task |
| Kernel.Microkernel.ClearSendQueue | kernel/src/syscall/syscall.c:57-67 | the loop over the linked send queue does what the model says |
| Kernel.Microkernel.Exit | kernel/src/syscall/syscall.c:69-73 | Exit on the linked queues does what the model says |
| Kernel.Microkernel.EventRegister | kernel/src/events.c:20-34 | AwaitEvent does what the model says, with -1 and -3 for a bad and a taken event |
| Kernel.Microkernel.EventHandle | kernel/src/events.c:36-54 | a fired event does what the model says; the three assertions about its task hold |
| Kernel.Microkernel.EventDeregister | kernel/src/events.c:56-66 | frees the slot of an event-blocked task; its assertions hold |
| Kernel.Microkernel.Kill | kernel/src/syscall/syscall.c:121-141 | Kill of any live task, killable or not, does what the model says and meets no null pointer, with -2 for the caller and -1 for a negative tid of no slot |
| Kernel.Microkernel.HandleInterrupt | kernel/src/interrupt.c:205-263 | each call and interrupt does what the model says on the linked state; what that is, KernelEffects.CallHasEffect fixes |
| Kernel.Microkernel.Schedule | kernel/src/multitasking/schedule.c:17-53 | one turn of the loop does what the model says and keeps the invariant; its assertions hold |
| Kernel.Start | main.c:95-99 | the kernel starts with its first task in a state that keeps the invariant |
| PriorityQueue.ParentValue | lib/priority_queue.h:24-25 | the parent of index 0 wraps to 0x7FFFFFFF, which is out of bounds |
| PriorityQueue.RootIsMinimum | lib/priority_queue.h:104-106 | in a heap no key is below that of the root |
| PriorityQueue.SinkStep | lib/priority_queue.h:43-62 | swapping with the smaller child moves the only place where heap order may fail down to it |
| PriorityQueue.RiseStep | lib/priority_queue.h:82-86 | swapping with the parent moves the only place where heap order may fail up to it |
| PriorityQueue.DrainSorts | lib/priority_queue.h:91-102 | what successive dequeues return is sorted, and with what is left it is what was in the heap |
| PriorityQueue.PriorityQueue.Drain | lib/priority_queue.h:91-102 | dequeuing until nothing is left gives a sorted permutation of what was in the heap |
| PriorityQueue.PriorityQueue.Swap | lib/priority_queue.h:33-38 | exchanges two elements and nothing else |
| PriorityQueue.PriorityQueue.Sink | lib/priority_queue.h:40-63 | heap order from the next index on becomes heap order from this one on, with the same elements |
| PriorityQueue.PriorityQueue.Heapify | lib/priority_queue.h:65-69 | any contents become a heap of the same elements |
| PriorityQueue.PriorityQueue.Enqueue | lib/priority_queue.h:71-89 | keeps heap order and adds exactly the one element, or fails exactly when full and changes nothing |
| PriorityQueue.PriorityQueue.Dequeue | lib/priority_queue.h:91-102 | keeps heap order and removes exactly the one element returned, a minimum, or fails exactly when empty |
| PriorityQueue.PriorityQueue.Peek | lib/priority_queue.h:104-106 | an element with the least key, if there is one |
| Track.DistinctFit | usr/train/router.c:73-86 | a walk without repetitions has no more nodes than the track |
| Track.WalkExtend | usr/train/router.c:73-86 | adding an edge to a walk adds its length and its node |
| TrackSearch.DistanceSearchExact | lib/track/track_data.c:371-400 | the bounded search returns -1 if and only if no walk of at most limit edges leads there, and otherwise the length of such a walk |
| TrackSearch.ReachableSearchAgrees | lib/track/track_data.c:484-502 | the yes/no search says yes exactly when the distance search finds a walk |
| ShortestPath.LabelsAreLowerBounds | usr/train/router.c:5-15 | once all edges are relaxed, no walk is shorter than the label of its end |
| ShortestPath.TrailIsWalk | usr/train/router.c:73-86 | the chain of predecessors is a walk from the start of exactly the labelled length |
| ShortestPath.TrailHasNoRepeats | usr/train/router.c:73-86 | no node is on the chain twice, because the positions of predecessors strictly fall |
| ShortestPath.SearchIsExact | usr/train/router.c:30-57 | after the search a node is labelled as reached if and only if a walk shorter than 1E8 mm leads to it, and then its chain is a shortest walk |
| RoutePlanner.FindByNode | usr/lib/search_node_queue.c:21-29 | finds a queued node wherever it is in the heap, and null only if it is not queued |
| RoutePlanner.UpdateSearchNode | usr/train/router.c:5-15 | afterwards the edge is relaxed, all earlier ones still are, and the dequeued nodes are untouched |
| RoutePlanner.RelaxEdges | usr/train/router.c:36-54 | the edges of the dequeued node are relaxed and the edited queue is a heap again |
| RoutePlanner.DequeueAll | usr/train/router.c:30-57 | the loop dequeues every node once, nearest first, and leaves all edges relaxed |
| RoutePlanner.ChainIsTrail | usr/train/router.c:73-86 | the pointers among the dequeued records fall strictly and give the chain of predecessors |
| RoutePlanner.CountEdges | usr/train/router.c:73-78 | the first pass ends and counts the edges of the route |
| RoutePlanner.WriteRoute | usr/train/router.c:80-85 | the second pass writes the route in walking order, followed by the null node |
| RoutePlanner.FindEnd | usr/train/router.c:59-65 | finds the record of the end if there is one |
| RoutePlanner.EndRecord | usr/train/router.c:67-71 | a record without predecessor means out of reach, unless it is the start; any other leads back along a shortest route |
| RoutePlanner.PlanRoute | usr/train/router.c:17-88 | true if and only if the end is in reach; then the buffer holds a shortest route from start to end without repetitions, null-terminated; else it is unchanged |
| RoutePlanner.RoutesFitInTrackPlusOne | usr/train/router.c:80 | one slot more than the track has nodes is always enough |
| RouteDistance.RouteNodeCount | usr/train/router.c:90-94 | the number of nodes before the null node |
| RouteDistance.OnRoute | usr/train/train_util.c:267-274 | true exactly for nodes of the route |
| RouteDistance.GetRemainingDistInRoute | usr/train/train_util.c:276-307 | the length of the route from the location to its end, and what it says for a location off the route |
| RouteDistance.GetDistOnRoute | usr/train/train_util.c:318-348 | the length of the route from the location to a later slot |
| RouteDistance.DistancesAddUp | usr/train/train_util.c:276-348 | the distance to a later point and the remaining distance from there make up the remaining distance |
| RouteDistance.ReadRouteLength | usr/train/router.c:96-101 | the remaining distance from the first node |
| RouteDistance.LengthReadBack | usr/train/router.c:96-101 | the length read along a shortest walk exceeds it by exactly the excess of the straight edges that are longer than their parallel curved ones |
| RouteDistance.RouteLengthIsLeast | usr/train/router.c:96-101 | route_length of a planned route is 100 times the least distance and that excess; so it is exact if and only if no straight edge on the route is longer than its parallel curved edge |
| RouteDistance.RemainingIsLeast | usr/train/train_util.c:276-307 | on a planned route the remaining distance from a location is 100 times the least distance from its node to the end and the excess of the rest, less the offset |
| RouteDistance.RemainingOffRoute | usr/train/train_util.c:276-307 | from a location off the route it is the offset negated |
| RouteDistance.DistanceBehind | usr/train/train_util.c:318-348 | so is the distance to a slot that does not come after the location |
| Router.GetRoute | usr/train/router.c:112-144 | a route is found if and only if the end or its reverse is in reach; the buffer holds a shortest one to one of them, and if both are in reach the one that route_length calls shorter |
| Router.ChoiceIsShortest | usr/train/router.c:126-137 | the route kept is the shorter one if and only if it reads shorter with the excess of the straight edges taken off; in particular if no straight edge of the rejected route is longer than a parallel curved one |
| Router.LongerRouteChosen | usr/train/router.c:126-137 | a track on which a route of 100 mm is kept and one of 6 mm rejected |
| Router.SearchIsNoShorter | lib/track/track_data.c:371-400 | the bounded search never reports less than the least distance |
| Router.SensorReachableExact | lib/track/track_data.c:484-508 | sensor_reachable says yes if and only if the sensors are the same or a walk of at most 51 edges leads there |
| Router.ReachableIsPlanned | lib/track/track_data.c:484-508 | what sensor_reachable can reach the planner can, if 51 edges stay below 1E8 mm |
| TrackLocation.NextFollowsTurnouts | lib/track/track_data.c:515-530 | a branch leads straight on if its turnout is set to Straight and along the curve if to Curved or Unknown; sensors, merges and entries lead ahead, all else nowhere; turnouts 1 to 18 and 153 to 156 have slots 0 to 17 and 18 to 21 |
| TrackLocation.SlotsAreDistinct | lib/track/track_data.c:288-304 | every slot is that of exactly one turnout |
| TrackLocation.GapIsEdgeLength | lib/track/track_data.c:371-407 | the distance measured to the next node is that of the edge under the turnouts if and only if the edge is no loop with a length and, when it is curved, the straight way does not lead there within the limit over another length |
| TrackLocation.WalkedIsTrackLength | lib/track/track_data.c:548-568 | the sum of the measured distances is the length of the edges the turnouts lead over, after every step, if and only if every edge is measured right |
| TrackLocation.LongZeroRunIsCycle | lib/track/track_data.c:548-568 | as many zero-length steps as the track has nodes make a cycle |
| TrackLocation.TerminatesUnlessZeroCycle | lib/track/track_data.c:553-565 | the loop ends on every position if and only if there is no cycle of zero-length steps under the turnouts |
| TrackLocation.CanonicalConserves | lib/track/track_data.c:548-568 | the result is some steps ahead with the offset less by the sum of the measured distances |
| TrackLocation.RoundsAreNotCanonical | lib/track/track_data.c:553-565 | it is the first canonical position on the way |
| TrackLocation.CanonicalKeepsPlace | lib/track/track_data.c:548-568 | a walk over the edges of the track, taking the curve exactly at branches whose turnout is not set to Straight, leads from the old node to the new one; the offset has fallen by the length of that walk if its edges are measured right, and keeps to it all along only then |
| TrackLocation.CanonicalRange | lib/track/track_data.c:548-568 | the offset of the result lies before the next node, and is not negative unless it was, and then nothing changes |
| TrackLocation.CanonicalIsIdempotent | lib/track/track_data.c:548-568 | canonicalizing twice is canonicalizing once |
| TrackLocation.CanonicalComposes | lib/track/track_data.c:548-568 | canonicalizing before a forward move does not change where it ends |
| TrackLocation.MovesAddUp | lib/track/track_data.c:548-568 | moving by x and then forward by y is moving by x + y |
| TrackLocation.LocationCanonicalize | lib/track/track_data.c:548-568 | the loop computes it, also in place |
| TrackLocation.LocationRebase | lib/track/track_data.c:308-332 | the recursion computes its code and position, also in place; nothing is written without steps left |
| TrackLocation.RebaseLands | lib/track/track_data.c:308-332 | a successful rebase of a negative offset is at most limit steps back, and the offset grows by the sum of the measured distances |
| TrackLocation.RebaseStepsBackOnce | lib/track/track_data.c:308-332 | a non-negative offset is rebased by exactly one step back, if there is one and the limit allows it |
| TrackLocation.BackGapIsEdgeLength | lib/track/track_data.c:371-407 | a step back is measured as long as its edge if and only if that is no loop with a length and, from a branch, the straight way does not lead back within the limit over another length |
| TrackLocation.WayBackLeadsBack | lib/track/track_data.c:308-332 | a walk leads from the node some steps back to the old one, over as much track as the reversed train passes |
| TrackLocation.WalkedBackIsTrackLength | lib/track/track_data.c:308-332 | the sum of the measured steps back is the length of the edges passed, after every step, if and only if every step is measured right |
| TrackLocation.RebaseKeepsPlace | lib/track/track_data.c:308-332 | after a successful rebase a walk leads from the new node to the old one, as long as the way of the reversed train under the turnouts, and the offset has grown by that length if the steps are measured right |
| TrackLocation.RebaseIsExact | lib/track/track_data.c:308-332 | for a negative offset it succeeds if and only if at most limit steps back make the offset non-negative |
| TrackLocation.LimitIsReached | lib/track/track_data.c:308-332 | -1 if and only if no step is left or limit steps back exist and leave the offset negative; the location reached is then in place |
| TrackLocation.WayBackRunsOut | lib/track/track_data.c:308-332 | -2 if and only if the way back ends within the limit before the offset is non-negative |
| TrackLocation.RebaseNeverAsserts | lib/track/track_data.c:402-407 | on a reverse-closed track the distance of a step back is always found |
| TrackLocation.RebaseIsCanonical | lib/track/track_data.c:308-332 | the offset is non-negative and below the last edge stepped over, so canonical if the turnouts lead forward the same way |
| RingBuffer.RingBuffer.Put | lib/buffer.h:40-47 | appends to the buffered sequence |
| RingBuffer.RingBuffer.PutSafe | lib/buffer.h:49-56 | appends, or fails exactly when full |
| RingBuffer.RingBuffer.PutReplace | lib/buffer.h:58-63 | appends, dropping the oldest element exactly when full |
| RingBuffer.RingBuffer.Get | lib/buffer.h:74-78 | takes the oldest element |
| ByteServers.TxConserves | usr/ioserver.c:3-65 | over every run output followed by the buffer is the accepted input, an idle line means an empty buffer, and every notification that is not redundant is worth one byte |
| ByteServers.TxStopsExactly | usr/ioserver.c:26-48 | a run stops exactly at a text that does not fit behind the bytes accepted and not yet written, and stays stopped |
| ByteServers.TxServer.OnNotify | usr/ioserver.c:15-25 | writes the oldest byte, or notes that the line is idle |
| ByteServers.TxServer.OnPutc | usr/ioserver.c:26-38 | the byte is written at once exactly if the line is idle; a full buffer stops the server |
| ByteServers.TxServer.PutAll | usr/ioserver.c:40-47 | the whole text is buffered behind what was there, or the assertion fails exactly when there is no room for it |
| ByteServers.TxServer.OnPrintf | usr/ioserver.c:39-58 | all bytes are buffered and the first is written exactly if the line is idle |
| ByteServers.RxDeliversInOrder | usr/ioserver.c:143-188 | over every run waiting Getcs and buffered bytes are never both there, and the k-th Getc gets the k-th byte |
| ByteServers.RxStopsExactly | usr/ioserver.c:157-173 | a run stops exactly at a byte that finds the buffer full, and stays stopped |
| ByteServers.RxServer.OnReceived | usr/ioserver.c:157-173 | a byte goes to the longest waiting Getc or into the buffer; a full buffer stops the server |
| ByteServers.RxServer.OnGetc | usr/ioserver.c:174-182 | a Getc gets the oldest byte or waits behind the others |
| ClockServer.DelayIsInFuture | usr/clock.c:41-50 | after a Delay all deadlines are in the future if and only if the new one fits in 32 bits |
| ClockServer.OverflowWakesEarly | usr/clock.c:47 | a Delay of the longest time at tick 1 is due at tick 2 |
| ClockServer.AlwaysInFuture | usr/clock.c:17-64 | in a run in which no Delay goes beyond 32 bits, every queued deadline is strictly in the future between messages |
| ClockServer.WokenOnTime | usr/clock.c:25-33 | in a run in which no Delay goes beyond 32 bits, a tick wakes only waiters whose deadline is the new tick |
| ClockServer.EveryoneIsWoken | usr/clock.c:25-33 | in a run in which no Delay goes beyond 32 bits, every waiter whose deadline has come was woken, at that very tick |
| ClockServer.DelayWakesOnTime | usr/clock.c:41-50 | in a run in which no Delay goes beyond 32 bits, a Delay(d) at tick t is answered at tick t + d |
| ClockServer.DelayUntilWakesOnTime | usr/clock.c:51-60 | in a run in which no Delay goes beyond 32 bits, a DelayUntil(d) made before d is answered at tick d |
| ClockServer.RefusedLeavesQueue | usr/clock.c:41-56 | a Delay that is not positive and a DelayUntil that is not in the future change nothing |
| ClockServer.TimeCounts | usr/clock.c:21-40 | the time is the number of notifications so far, in 32 bits |
| ClockServer.QueueNeverFull | usr/clock.c:48 | under the hypothesis ClientsBlock, that no client asks again while it waits, at most 63 wait, so the 64 slots never overflow |
| ClockServer.Server.OnNotify | usr/clock.c:21-35 | the loop wakes exactly the due waiters, in the order of their deadlines |
| ClockServer.Server.OnDelay | usr/clock.c:41-60 | exactly a Delay that is not positive and a DelayUntil that is not in the future are refused, any other is queued |
| ReservationServer.SamePhysical | usr/train/track_reservation_server.c:22-26 | two pairs of nodes are the same physical edge if and only if they are equal or each other reversed |
| ReservationServer.Server.Symmetric | usr/train/track_reservation_server.c:28-34 | the matrix has the same entry for an edge and its reverse |
| ReservationServer.Server.HandleRequest | usr/train/track_reservation_server.c:12-43 | the branch for inconsistent reverse entries is never taken; an edge changes hands exactly if it is as expected |
| ReservationServer.Server.OnRequest | usr/train/track_reservation_server.c:62-87 | MAKE and DROP on the matrix do what they do on a table of locks |
| ReservationServer.Server.OnDropAll | usr/train/track_reservation_server.c:88-101 | all locks of the train go and no others |
| ReservationServer.Server.OnGetAll | usr/train/track_reservation_server.c:102-128 | the entries of the train in matrix order, up to the limit |
| ReservationServer.MakeIsGranted | usr/train/track_reservation_server.c:12-43 | MAKE answers 0 if and only if a straight or curved edge leads there and nobody holds the piece of track, -1 if and only if no edge does, else -2; only 0 changes the locks |
| ReservationServer.DropIsGranted | usr/train/track_reservation_server.c:12-43 | DROP answers 0 if and only if such an edge exists and the train holds the piece of track, -1 if and only if there is none, else -2; only 0 changes the locks |
| ReservationServer.OnlyHolderReleases | usr/train/track_reservation_server.c:58-101 | a lock is granted only if free, to the train that asked, and released only by its holder |
| ReservationServer.HeldUntilReleased | usr/train/track_reservation_server.c:58-101 | over every run a lock stays with its holder until that one releases it |
| ReservationServer.LocksAreHeld | usr/train/track_reservation_server.c:58-101 | no lock is ever held by the code for none |
| ReservationServer.MakeThenDrop | usr/train/track_reservation_server.c:62-87 | a granted MAKE followed by its DROP, on the same physical edge, leaves the table as it was |
| Numerals.Ui2a | lib/tstdlib.c:89-105 | writes the numeral of the value, without leading zeros and with its terminator, within the digits it needs; the divisor does not overflow |
| Numerals.NumeralIsUnique | lib/tstdlib.c:89-105 | a value has only one numeral without leading zeros |
| Numerals.DigitsAre | lib/tstdlib.c:66-105 | the sixteen digits have their values, in either case, and nothing else has one |
| Numerals.A2i | lib/tstdlib.c:73-87 | reads the longest prefix of accepted digits and stops behind the character after it |
| Numerals.PrintThenParse | lib/tstdlib.c:73-105 | what ui2a writes a2i reads back, for every base from 2 to 16 and value below 2^31 |
| Numerals.BaseTakenAsDigit | lib/tstdlib.c:78 | the accepted prefix is that of the proper digits if and only if the character after it is not the digit equal to the base |
| Numerals.BaseTakenAsDigitExample | lib/tstdlib.c:78 | in base 10 the text 1a is read as 20 |
| Numerals.TenDigits | lib/tstdlib.c:107-113 | no 32-bit magnitude needs more than ten digits |
| Numerals.MagnitudeIsAbsolute | lib/tstdlib.c:107-113 | negating a negative 32-bit number as unsigned gives its magnitude, the least one included |
| Numerals.I2a | lib/tstdlib.c:107-113 | sign, numeral and terminator fit 12 bytes, for every 32-bit number |

## Left out

- Assembly, UART, interrupt controller and timer registers, stack pointers, caches and usage statistics: access to hardware. An interrupt is a step with an event and its data; whether the event id is remapped between transmit and receive is not modelled.
- MyTid, MyParentTid, MyPriority and the other calls that only return a value are one call with an arbitrary value, so the parent of a task is not modelled.
- Panic and the fatal assertions of user tasks end a run and are not steps of it.
- Messages are byte sequences and buffers belong to the task that gave them: overlapping buffers, negative lengths and pointers to nowhere are not modelled.
- Trapframe registers other than the result and the arguments of Send, Receive and Reply, and exit codes: nothing else reads them.
- Kernel.Microkernel.Create: the entry point and the stack of the new task are not modelled.
- Kernel.Microkernel.Kill: the interrupt that handle_vic_event acknowledges for an event-blocked victim is left out, since the victim is no longer registered for it. Killing a dead slot is not modelled: task_retire writes through its null trapframe. Killing a live task that is not killable is modelled, but ends a run.
- A stale tid is not rejected: is_valid_userland_tid ignores the generation, so no such claim is made.
- The couriers, conductors, name server, command parser, views, calibrators, demos and benchmarks: plumbing and user interface.
- The fifo servers, PREV_I and NEXT_I of lib/buffer.h: their loops and index arithmetic rely on states the generic servers never reach.
- ByteServers.TxConserves: that the line can take a byte after a notification (rawcanputc) is an assumption on the hardware and is not stated; a notifier that notifies an idle line again is counted as redundant.
- ByteServers.RxServer.OnGetc: more than 64 waiting callers are excluded, since there are at most 63 live tasks.
- The tables of both tracks and of the calibration: data. A track is any well-formed one, so no property depends on them.
- Velocity, acceleration, stopping distances and collision prediction: floating-point estimates without a specification to meet.
- Conversions of sensor and turnout numbers: finite tables.
- RoutePlanner.PlanRoute: the buffer must have a slot more than a shortest route has nodes; a route through all 144 nodes of a full track would not fit in the 144 slots of the source.
- RouteDistance.ReadRouteLength: lengths in 1/100 mm are unbounded integers; the 32-bit sums of the source overflow for routes longer than 21 km.
- Distances in the searches and in the planner are unbounded integers: sums beyond 32 bits are not modelled.
- ClockServer.QueueNeverFull: that clients wait for their answer is a hypothesis on the run of the server; KernelHistory.SilentUntilAnswered proves it of a task that is not killed, but the two runs are not tied together. The replies of the servers are assumed to arrive.
- Kernel.Microkernel.Schedule: a turn with a Kill that is not killable, or with an armed event nobody waits for, is left out, since it keeps no invariant; Kernel.Microkernel.Kill does the former.
- QueueBank.Bank.HasOneElement: the empty queue, whose null head the source dereferences.
- RingBuffer.RingBuffer.Put: a full buffer, against which the callers test.
- RingBuffer.RingBuffer.Get: an empty buffer, against which the callers test.
- RingBuffer.RingBuffer.PutReplace: a buffer of size zero.
- RouteDistance.GetRemainingDistInRoute: the empty route, which no caller has.
- RouteDistance.GetDistOnRoute: an end that is not on the route.
- Numerals.Ui2a: bases other than 2 to 16, for which there are no digits.
- Numerals.A2i: text that ends inside a number; the source reads on past its end.
- The creation, names and registration of the servers: plumbing.
