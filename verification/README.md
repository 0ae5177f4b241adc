# sickle: a verified model of its readiness queue, poll lock and timer

sickle is an event loop library. Three of its parts are hard to get right and are modelled here, each
together with what it promises.

**The readiness queue** (`ReadyQueue`, `QueueProofs`, `QueueClose`, `QueueDrop`, `QueuePass`, `QueuePassRun`). An
intrusive list with many producers and one consumer, three marker nodes, and a handshake with the wakeup pipe. It is
an interleaved machine: every load, store, exchange and fetch of the source is one step of one thread, for any number
of threads and nodes. `order` is the list from tail to head as the exchanges of the head made it, whether or
not its links are stored yet; `pushed` and `popped` are what was ever pushed and returned.

**Registrations** (`ReadinessWord`, `Registration`, `RegistrationInv`, `RegistrationSteps`,
`RegistrationConsumer`, `RegistrationProcess`, `RegistrationTheorems`, `RegistrationRuns`, `JobDelivery`,
`JobCalls`). `set_readiness`, `update`, dropping a registration, and the consumer's processing of a node, on top of
the queue machine. The packed state word is first shown to be a record of seven fields, on 64-bit vectors; the
protocol then uses the record.
`JobDelivery` follows `enqueue_job` from its registration to `push_event`, `JobCalls` on to the call by `io_process`.

**The poll lock** (`PollLock`). The word-and-condvar lock of `Poll::poll1`, which is what allows the queue only
one consumer. Any number of threads, timeouts, spurious wakeups and barging.

**The timer** (`TimeArithmetic`, `Masks`, `Wheel`, `WheelSteps`, `WheelTiming`, `WheelDrain`, `WheelRuns`,
`WheelLinks`, `Timer`, `TimerWakeup`, `TimerWakeupProofs`). The hashed wheel as a value (one list of keys per
slot, and a cursor that survives between calls), what it means, and the class `Timer`, which updates a slab and
doubly linked lists in place and is proved to compute the functions on the value. `TimerWakeup` interleaves the
timer's owner with its wakeup thread.

**The event loop** (`EventLoop`, `EventLoopProofs`). `io_process` over a batch of events, with the timer of `Timer`.
Any callback may set and cancel timeouts while the timer is being drained. The class is proved to run a machine with
one step for each poll, call and request; the theorems are about every run of it, with any requests.

All machines are sequentially consistent. Theorems about "every run" quantify over every list of enabled steps
from the initial state.

## Where the code does not do what one would expect

The model follows the code. Seven properties fail, and the exact conditions are proved:

- `set_timeout_at` compares `tick < self.tick`, so a timeout for the cursor's own tick is inserted behind the
  scan and fires one whole turn of the wheel late (`CursorInsertIsOneTurnLate`). The wheel is punctual throughout a
  run, that is no pending entry has ever been passed by the cursor, if and only if no timeout was requested for the
  cursor's own tick (`PunctualExactly`). Meanwhile each poll that returns None plans the next wakeup no later
  than the cursor (`PassedIsReplanned`), so the loop keeps waking up. In a batch that drains the timer a timeout that is
  due is called if and only if the cursor had not passed it or the wheel has turned since (`DueIsCalled`).
- A poll that returns None leaves the cursor one tick ahead of the clock, and the next poll scans up to the cursor
  even if the clock has not moved. On a punctual wheel a poll returns an entry before its time if and only if the
  cursor is ahead of the clock and an entry is due at it (`FiresEarlyExactly`); after a poll that returned None the next
  one at the same reading does so if and only if an entry is due at the next tick (`SecondPollIsEarly`).
- A timeout with tick 0 makes `schedule_readiness` store 0 in `wakeup_state`, which is the order to end: the
  wakeup thread ends while the timer lives, and nothing announces the entry (`TickZeroEndsTheThread`). Cancelling the
  timeout before the timer is registered does not help, as the slot's `next_tick` stays 0 (`CancelledZeroEndsTheThread`).
  With the owner at rest the thread is doomed if and only if `next_tick` was 0 at the registration, the timer was
  dropped, a timeout was set for tick 0, or a poll that returned None planned tick 0 (`ThreadEndsIff`). For a timer
  that had no timeout for tick 0 before its registration, if and only if it was dropped or a timeout was set for tick 0
  (`ThreadEndsIffCalled`, `RunPositive`).
- `register` schedules `next_tick`, which is a bound only after a poll that returned None. A timer registered after a
  poll that returned an entry can hold one for which nothing is scheduled, and the thread sleeps for ever with it
  overdue (`HalfWayRegistrationIsSilent`). Every entry is signalled in every run if and only if, at the registration,
  `next_tick` is not after any pending deadline, or the cursor if that deadline is past (`SignalledIffPlanned`).
- `ReadinessQueue::drop` stops at the first `Dequeue::Empty`, which can leave pushed nodes in the queue, with their
  references (`DrainCanLeaveNodes`). Every run of the drop returns all nodes if and only if, at its call, the head is a
  data node and no producer is half-way behind a marker (`DropDrainsExactly`).
- `push_event` stores an empty readiness with the job, and `io_process` passes that one on: no job of the readiness
  queue is ever called with the readiness of its event (`ReadinessIsLost`). The jobs of a batch get the readiness of
  their events if and only if no event of the readiness queue among them has any (`ReadinessReachesJobs`).
- The setters of the state word do not mask their argument. Each changes its own field and no other, on every word, if
  and only if the value has at most four bits (`ReadinessFits`, and `InterestFits` and `PollOptFits` for what is left of
  the value after the shift); on one word, if and only if the other bits are set already (`ReadinessSpill`).
  `WideValueSpills` has two inputs.

## Model

| member | source | states |
|---|---|---|
| QueueProofs.StepKeeps | src/poll.rs:326-410 | every step of every producer and of the consumer keeps the invariant of list, links, markers, wakeups and order |
| QueueProofs.QueueIsFifo | src/poll.rs:326-410 | in every run what was returned is a prefix of what was pushed, in the order of the head exchanges, the rest is the list, and a returned node is never a marker |
| QueueProofs.DequeueReturnsOldest | src/poll.rs:378-410 | a dequeue that returns a node returns the oldest one pushed and not yet returned |
| QueueProofs.OneLinker | src/poll.rs:341-349 | each place between tail and head is linked to its successor, or exactly one thread is about to link it |
| QueueProofs.MarkersApart | src/poll.rs:354-405 | end and sleep marker are never both in the list; a marker is reset or re-pushed only while it is out of the list |
| QueueProofs.NoLostWakeup | src/poll.rs:318-376 | while the consumer may block after prepare_for_sleep, a node behind the sleep marker has filled the pipe or its producer is before its wakeup |
| QueueProofs.QuietMeansAwake | src/poll.rs:507-537 | with no producer mid-push, a consumer blocked over a non-empty queue has a readable pipe |
| QueueDrop.DropDrainsExactly | src/poll.rs:540-556 | from the call of drop, every run that returns has returned every node ever pushed, if and only if the head is a data node and no producer is half-way behind a marker |
| QueueClose.CleanCloseDrains | src/poll.rs:540-556 | if no producer is half-way behind a marker when the closed marker becomes the head, drop returns every node ever pushed |
| QueueClose.DrainGivesUp | src/poll.rs:543-545 | where drop stops, the queue is drained if and only if no thread is about to link into the tail marker |
| QueueClose.DrainEndsAfterSleepClear | src/poll.rs:362-373 | clearing the sleep marker changes nothing in a closing queue, and drop then returns |
| QueueClose.DrainCanLeaveNodes | src/poll.rs:540-556 | a reachable state in which drop has returned and a pushed node was not |
| QueueClose.DequeueAloneIsFifo | src/poll.rs:378-410 | without producers dequeue_node is the dequeue of a plain queue, stopping at `until` |
| QueuePass.ReadinessQueue.Poll | src/poll.rs:449-505 | one pass visits a prefix of the queue, each node once, ends with the queue exhausted or the events full, appends their events in order, and leaves the unvisited rest before the level nodes that return |
| QueuePassRun.PassIsRun | src/poll.rs:378-410 | from the start of a pass without pushes in flight, the steps of dequeue_node and of the re-push visit the queue as ReadinessQueue.Poll does, and the next dequeue finds nothing exactly when all nodes are visited |
| QueuePassRun.CompletePass | src/poll.rs:449-505 | the complete pass is a run of the queue's machine: every node returned once, the level nodes queued again in order |
| QueuePass.VisitedMeans | src/poll.rs:473-483 | a visited node is queued again exactly if live, level-triggered and ready; a fired oneshot edge node is disarmed |
| QueuePass.AgainIn | src/poll.rs:493-498 | the nodes pushed back are exactly the visited level-triggered nodes with effective readiness |
| QueuePass.EventsIn | src/poll.rs:499-503 | the events of a pass are those of the visited live nodes with effective readiness |
| QueuePass.StopsAtEnd | src/poll.rs:456-459 | `until` ends the pass exactly when the old queue has been visited completely |
| QueuePass.PassKeepsValid | src/poll.rs:449-505 | after a pass every node in the queue is there once and has QUEUED set |
| ReadinessWord.PackUnpack | src/poll.rs:15-26 | word and record of seven fields are inverse encodings |
| ReadinessWord.PackInjective | src/poll.rs:190-205 | comparing words is comparing records |
| ReadinessWord.FieldSetters | src/poll.rs:74-130 | each setter changes its own field and no other |
| ReadinessWord.Getters | src/poll.rs:71-126 | each getter reads its own field |
| ReadinessWord.NewWord | src/poll.rs:62-70 | a new state has interest and options and nothing else |
| ReadinessWord.ReadinessFits | src/poll.rs:92-94 | set_readiness changes its own field only, on every word, if and only if the value has at most four bits |
| ReadinessWord.InterestFits | src/poll.rs:95-97 | the same for set_interest, for what the shift leaves of the value |
| ReadinessWord.PollOptFits | src/poll.rs:98-100 | the same for set_poll_opt |
| ReadinessWord.ReadinessSpill | src/poll.rs:74-76 | on one word the setter changes its own field only if and only if the value's other bits are set in it already |
| ReadinessWord.WideValueSpills | src/poll.rs:74-76 | a five-bit readiness changes the interest, a six-bit option the read position |
| ReadinessWord.NextPosIsFree | src/poll.rs:131-161 | the next token slot is neither the read nor the write position |
| RegistrationProcess.StepKeeps | src/poll.rs:786-1056 | every step of every thread and of the consumer keeps the registration invariant |
| RegistrationTheorems.NeverRefused | src/poll.rs:318-324 | a thread that owes a push can always make it: the node is never already in the queue |
| RegistrationTheorems.ExclusiveOwner | src/poll.rs:206-210 | QUEUED is set exactly if the node is in the list, in the consumer's hand or owed by a thread, and then at one of these only |
| RegistrationTheorems.ReleasedIsOut | src/poll.rs:287-299 | a node whose queue reference was released is nowhere in the queue and never pushed again |
| RegistrationTheorems.ReferenceCount | src/poll.rs:827-842 | ref_count is the live handles plus the queue's reference, less one between attaching and counting; released at most once |
| RegistrationTheorems.NoUseAfterFree | src/poll.rs:287-299 | every node a step touches has a positive reference count |
| RegistrationTheorems.DroppedIsReleased | src/poll.rs:469-472 | a dropped node that no thread works on and that has left the queue has been released |
| RegistrationTheorems.ClosedIsReleased | src/poll.rs:540-556 | after a complete drain every queued node that no thread works on was released exactly once, and one without handles is freed |
| RegistrationRuns.DropReleasesAll | src/poll.rs:540-556 | if at the call of drop the head is a data node and no producer is half-way behind a marker, then in every run, once drop has returned, every queued node that no thread works on was released exactly once, and one without handles is freed |
| RegistrationRuns.StepIsQueueStep | src/poll.rs:786-1056 | every step on registrations leaves the readiness queue alone or is one step of its machine, so that the queue's theorems hold of it |
| RegistrationTheorems.NoTornToken | src/poll.rs:857-869 | an update writes a slot that is neither read nor write position nor about to be read, and no two updates write |
| RegistrationTheorems.ClaimIsCommitted | src/poll.rs:466-492 | an event goes to push_event with the readiness of the consumed state and the token of the last committed update |
| RegistrationTheorems.LoadNotesCommitted | src/poll.rs:462-491 | the token noted at a load or failed exchange is the committed one |
| RegistrationRuns.ClaimedStateWasReal | src/poll.rs:462-492 | in every run from a node's dequeue to the claim, the event claimed has the readiness and the committed token of one state the node was in between the two |
| RegistrationTheorems.CommitSetsToken | src/poll.rs:870-885 | a successful exchange of update commits its token, which is in the slot at the write position |
| RegistrationTheorems.EventsAreClaims | src/poll.rs:499-503 | the event passed to push_event is the one claimed, in order |
| RegistrationTheorems.Triggers | src/poll.rs:475-482 | a live level node with effective readiness is queued; an edge oneshot node has fired at most once since the last update and is then disarmed |
| RegistrationRuns.OneshotFiresOnce | src/poll.rs:475-485 | in every stretch of a run in which no update of a node takes effect, at most one event is claimed from it in edge oneshot state |
| RegistrationTheorems.FiredCounts | src/poll.rs:475-485 | the count of fired events grows by one with each event claimed from an edge oneshot state, is reset by each committed update, and changes at no other step |
| RegistrationTheorems.AssertionsHold | src/poll.rs:332-348 | the debug assertions on node states, counts and links hold in every reachable state |
| RegistrationTheorems.QueuedIsNotSleptOver | src/poll.rs:795-817 | while the consumer may block over a queued node, the pipe is readable, or a producer is about to write it, or a thread is about to push this node |
| JobDelivery.JobExactlyOnce | src/net/event_loop.rs:300-324 | a job is passed to push_event at most once, exactly once when its node has been dequeued from an open queue, as its own callback; until then its registration is live |
| JobCalls.JobCalledOnce | src/net/event_loop.rs:300-324 | io_process calls a job at most once, as its own callback, and exactly once when it has run after the node was dequeued from an open queue |
| JobCalls.UnreportedJobLeaks | src/net/event_loop.rs:300-324 | a job that the queue lets go of unreported is never called, and its node is never freed |
| JobCalls.ReadinessIsLost | src/sys/unix/epoll.rs:249-262 | every event of the readiness queue has a readiness, and its job is called with an empty one |
| JobCalls.HandleIsIoProcess | src/net/event_loop.rs:118-150 | the calls of the Handle step are the job calls of every run of EventLoop.IoProcess for that batch |
| JobDelivery.JobInstalledFirst | src/poll.rs:887-892 | while an unreported job node is in the list or in the consumer's hand its job is installed and its state will report it |
| JobDelivery.JobDropIsSilent | src/poll.rs:469-472 | after the report the node passes through the queue only as a dropped one, without an event |
| PollLock.MutualExclusion | src/poll.rs:672-744 | at most one thread is in poll2, and lock_state is one for it plus two per counted waiter |
| PollLock.NoLostNotification | src/poll.rs:719-742 | if the lock is free and a waiter sleeps, a releaser owes a notify or an awake thread will look again |
| PollLock.NeverStuck | src/poll.rs:672-744 | with threads in poll1, one of them has a step that is neither a new call nor a spurious wakeup |
| TimeArithmetic.MillisIsCeiling | src/lib.rs:52-55 | millis is the exact ceiling |
| TimeArithmetic.TickIsNearest | src/timer.rs:138-141 | a duration's tick is off by at most half a tick |
| TimeArithmetic.TickIsMonotone | src/timer.rs:138-141 | later durations have no earlier tick, saturated or not |
| TimeArithmetic.EarlyByLessThanATick | src/timer.rs:138-145 | a timeout found due is early by less than one tick |
| TimeArithmetic.ParkReachesTick | src/timer.rs:332-336 | the thread's park time reaches the tick it sleeps for |
| Masks.SlotsArePowerOfTwo | src/timer.rs:151-153 | next_power_of_two gives a power of two, at least n and below 2n |
| Masks.SlotIsModulo | src/timer.rs:311-313 | mask and tick is tick modulo the number of slots |
| Timers.Timer.constructor | src/timer.rs:149-168 | a new timer is the empty wheel with next_power_of_two slots |
| Timers.Timer.SetTimeoutAt | src/timer.rs:176-183 | inserts at the requested tick, or just after the cursor if that is past, under a free key |
| Timers.Timer.Insert | src/timer.rs:185-204 | the entry becomes the head of its slot's list, the slot's bound the minimum, and its tick is scheduled |
| Timers.Timer.CancelTimeout | src/timer.rs:206-216 | takes out and returns the entry with that key and tick, and changes nothing otherwise |
| Timers.Timer.PollTo | src/timer.rs:223-260 | computes the wheel's poll; on None it clears the readiness and schedules next_tick, in this order |
| Timers.Timer.NextTick | src/timer.rs:301-309 | the loop computes next_tick of the wheel |
| Timers.Timer.Unlink | src/timer.rs:262-277 | the list updates of unlink, including a cursor on the entry |
| Timers.Timer.Register | src/timer.rs:358-384 | registration is refused the second time, else next_tick is scheduled |
| WheelLinks.PushedShape | src/timer.rs:185-196 | pushing an entry keeps prev and next mutually inverse along every list and is Insert on the wheel |
| WheelLinks.RemovedShape | src/timer.rs:206-216 | unlinking and removing an entry keeps every list well linked and is Unlink on the wheel |
| WheelLinks.AdvancedShape | src/timer.rs:229-235 | moving the cursor in memory is Advance on the wheel |
| WheelLinks.ExaminedShape | src/timer.rs:236-251 | looking at the entry under the cursor fires it exactly if it is due and skips it otherwise |
| WheelSteps.InsertValid | src/timer.rs:185-204 | insertion keeps the lists a partition of the entries by slot |
| WheelSteps.UnlinkValid | src/timer.rs:262-277 | so does unlinking, and the cursor stays in its slot's list, also if it was on the entry |
| WheelTiming.ScanLate | src/timer.rs:223-260 | whatever poll_to returns is due and at most one turn of the wheel late, with no condition on the deadlines |
| WheelTiming.ScanPunctual | src/timer.rs:223-260 | with deadlines ahead of the cursor, poll_to returns an entry on its very tick |
| WheelTiming.ScanBounded | src/timer.rs:228-250 | when poll_to returns None each slot's next_tick is a lower bound of all its entries |
| WheelTiming.NextTickIsEarly | src/timer.rs:301-309 | when poll_to returns None, next_tick is at or before every pending deadline, or the cursor if that deadline is past; with deadlines ahead of the cursor none is past |
| WheelDrain.DrainIsExact | src/timer.rs:223-260 | polling until None returns exactly the entries due, each once, leaves exactly the others, and the cursor just after |
| WheelDrain.DrainOrder | src/timer.rs:185-196 | a drain returns entries by non-decreasing deadline, the newest first among equals |
| WheelDrain.FiresEarlyExactly | src/timer.rs:223-226 | on a punctual wheel a poll returns an entry ahead of the clock if and only if the cursor is ahead of the clock and an entry is due at it |
| WheelDrain.SecondPollIsEarly | src/timer.rs:223-260 | after a poll that returned None, the next at the same reading returns an entry early if and only if one is due at the next tick |
| WheelDrain.PunctualInsert | src/timer.rs:178-182 | an insertion keeps the wheel punctual if and only if the requested tick is not the cursor's |
| WheelDrain.CursorInsertIsOneTurnLate | src/timer.rs:179-181 | an entry inserted at the cursor is returned by a drain if and only if the wheel has turned once |
| WheelDrain.PassedIsReplanned | src/timer.rs:253-309 | while an entry that the cursor has passed is pending, each poll that returns None schedules the cursor's tick, or one at or before the entry's, which the cursor has passed |
| WheelRuns.RunInv | src/timer.rs:176-277 | after any run of inserts, cancels and polls each entry is once in the list of its slot, the cursor is in the current slot's list, and next_tick bounds every scanned or newly inserted entry |
| WheelRuns.Conservation | src/timer.rs:176-260 | in every run each insertion is pending, cancelled or fired, exactly one of these; inserted = pending + cancelled + fired |
| WheelRuns.NeverMoreThanOneTurnLate | src/timer.rs:176-277 | in every run nothing fires before the cursor has reached its tick, nothing is overdue or fires more than one turn late, and what is overdue by a whole turn is at or after the cursor |
| WheelRuns.PunctualExactly | src/timer.rs:176-183 | no pending entry of a run is ever passed by the cursor if and only if no timeout was requested for the cursor's own tick |
| TimerWakeupProofs.PendingIsSignalled | src/timer.rs:253-309 | in every run of a timer whose next_tick was a bound at its registration, while the owner is idle each pending entry has a wakeup at or before its deadline, or the cursor if the deadline is past, or the timer is readable or about to be |
| TimerWakeupProofs.SignalledIffPlanned | src/timer.rs:358-384 | of all registered timers these are exactly the ones on which every entry is signalled in every run |
| TimerWakeupProofs.CompleteIsPlanned | src/timer.rs:253-309 | a new timer, or one polled until None, is such a timer |
| TimerWakeupProofs.HalfWayRegistrationIsSilent | src/timer.rs:301-309 | a run from a timer registered between two polls in which an entry is overdue and the thread sleeps for ever |
| TimerWakeupProofs.NeverSleepsPast | src/timer.rs:333-342 | in every run the thread never sleeps past wakeup_state without an unpark on its way |
| TimerWakeupProofs.OverdueBecomesReadable | src/timer.rs:322-355 | on such a timer, with an entry due by deadline and cursor and an idle owner, six steps of the thread make the timer readable, in every run in which nothing has ordered tick 0 |
| TimerWakeupProofs.ScheduleReaches | src/timer.rs:284-297 | schedule_readiness ends only once wakeup_state is at or before its tick |
| TimerWakeupProofs.ZeroIsForever | src/timer.rs:119-125 | wakeup_state is 0 exactly if a drop or a schedule of tick 0 has stored it |
| TimerWakeupProofs.ThreadEnds | src/timer.rs:329-331 | with 0 stored and the unpark done the thread ends within five steps and announces nothing new |
| TimerWakeupProofs.ThreadEndsExactly | src/timer.rs:322-355 | for an idle owner the thread ends within five steps if and only if wakeup_state is 0 |
| TimerWakeupProofs.ThreadEndsIff | src/timer.rs:279-331 | in every run, with the owner at rest, the thread ends within five steps if and only if next_tick was 0 at the registration, or some step was a drop, a timeout for tick 0, or a poll that returned None with next_tick 0 |
| TimerWakeupProofs.ThreadEndsIffCalled | src/timer.rs:279-331 | for a timer registered with no bound of 0, if and only if it was dropped or a timeout was set for tick 0 |
| TimerWakeupProofs.RunPositive | src/timer.rs:176-309 | such is every timer that had no timeout for tick 0 |
| TimerWakeupProofs.ThreadSurvives | src/timer.rs:279-309 | if nothing ever orders tick 0 the thread is never dead |
| TimerWakeupProofs.TickZeroEndsTheThread | src/timer.rs:178-199 | a run in which a timeout for tick 0 ends the thread, with the entry overdue and unannounced |
| TimerWakeupProofs.CancelledZeroEndsTheThread | src/timer.rs:185-216 | a run in which a timeout for tick 0, cancelled before the registration, ends the thread |
| EventLoops.EventLoop.IoProcess | src/net/event_loop.rs:118-150 | handles the first cnt events in order and clears them all; timer, clock and calls end where a run of the loop's machine ends, with any requests of the callbacks |
| EventLoops.EventLoop.DrainTimer | src/net/event_loop.rs:128-132 | polls and calls until a poll returns nothing, with the requests of each callback done before the next poll |
| EventLoopProofs.JobsCalledOnce | src/net/event_loop.rs:133-139 | every job of the batch is called exactly once, in order, with the readiness of its entry, whatever the callbacks do |
| EventLoopProofs.ReadinessReachesJobs | src/sys/unix/epoll.rs:249-262 | the jobs of a batch are called with the readiness of their events if and only if no event of the readiness queue among them has any |
| EventLoopProofs.CallbacksKeepOrder | src/net/event_loop.rs:75-84 | at every point of a batch the invariant of the timer's runs holds and each timeout is pending, cancelled or fired, although callbacks set and cancel timeouts between the polls |
| EventLoopProofs.EachExpiryIsCalled | src/net/event_loop.rs:127-132 | the timer's callbacks called are as many as the timeouts fired |
| EventLoopProofs.DueIsCalled | src/net/event_loop.rs:127-132 | a timeout due when a batch with the timer's event begins, and not cancelled by a callback, fires and is called in the batch if and only if the cursor had not passed it or the wheel has turned once since its tick |
| EventLoopProofs.PassiveIsDrain | src/net/event_loop.rs:127-132 | if the callbacks leave the timer alone its event calls what a drain returns, in the drain's order |

## Left out

- Weak memory orderings: the atomics are sequentially consistent here, whatever ordering the source names.
- epoll, sockets and file descriptors: `select` is a step that may return when the pipe is readable, on a timeout or on any error.
- Errors of the wakeup write other than a full pipe are excluded: after such an error with an empty pipe the wakeup would be lost.
- The abort on an overflowing reference count, and overflow of `lock_state`, of a tick beyond the u64 range and of `next_power_of_two`: numbers are unbounded.
- `update` with another Poll than the first (lines 836-845): there is one queue, so that error does not arise.
- The count of the `Arc` around the queue: the queue's memory outlives its nodes by assumption.
- `node.job` is written and read without synchronisation. Exactly-once is claimed for nodes made by `enqueue_job`, where `JobInstalledFirst` shows that no such race arises, not for a registration updated while its node is being delivered.
- JobDelivery.JobExactlyOnce: says nothing about a job whose node is still queued when the queue is closed; if the drop lets go of it, it is leaked (`UnreportedJobLeaks`).
- RegistrationTheorems.FiredCounts: counts claims from states that are edge and oneshot; an event claimed from a level-triggered state just before an update commits may still be passed on after it.
- QueuePass.ReadinessQueue.Poll: works on a sequence of nodes and without concurrent producers; `PassIsRun` ties the sequence to the machine, and with producers the statements are those of the registration machine.
- A drain that never ends, because callbacks go on setting timeouts that are already due: there are finitely many callbacks and enough readings of the clock.
- Callbacks that call `run_once` themselves, and what callbacks do besides setting and cancelling timeouts.
- The slab's reuse of keys: the model lets it hand out any free key. A stale handle whose key was reused with an equal tick cancels the new entry, as the code does; cancelling is specified by key and tick.
- WheelTiming.NextTickIsEarly: a lower bound only; a slot's next_tick can be stale and too early after a cancellation, which costs a spurious wakeup.
- The untimed park for a sleep whose milliseconds exceed u64: here every park may end when its tick is reached; for the value NEVER the clock never gets there.
- A poisoned mutex around a job, and the `Interrupted` handling of `run_once`.
- Timer::set_timeout and Timer::poll read the clock and delegate; the reading is a parameter here.
- Connection buffers, acceptors, connectors, builders, thread pools, selector ids, lazy cells and Debug formatting: plumbing without a protocol of its own.
