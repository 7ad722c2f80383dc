# Coroutine web server: scheduling and time

A Dafny model of the parts of the web server and of its copy of libco that decide who runs when:
the coroutine scheduler with its intrusive lists, timing wheel, event loop, condition variables and
shared stacks; the coroutine pool; the two double-buffered queues between threads; the seconds wheel
and the keep-alive timers on it; the environment of a coroutine; the hooked write loop; and the
request parser. `dafny verify dfyconfig.toml` checks everything.

## How it is organised

| file | what it models |
|---|---|
| `IntrusiveList.dfy` | items that know their list; remove, append, pop and join on the heap |
| `TimerWheel.dfy` | the millisecond wheel on values, and on which runs it is a stable priority queue |
| `TimeoutWheel.dfy` | the wheel as an array of intrusive lists, proved against `TimerWheel` |
| `EventLoop.dfy` | one round of the event loop on all the lists of a thread |
| `Scheduler.dfy` | the scheduler as a transition system over resumes, waits, events and signals |
| `SchedulerSafety.dfy` | its inductive invariant |
| `SchedulerRuns.dfy` | its promises over every run |
| `SchedulerRefusals.dfy` | epoll registrations over every run: what a refused poll leaves behind |
| `SchedulerConds.dfy` | condition queues over every run |
| `SchedulerHistory.dfy` | when waits end and who can be resumed, told from the events of a run |
| `SchedulerWheel.dfy` | on which runs the scheduler's timer is what its wheel holds |
| `EventLists.dfy`, `EventLoopRuns.dfy` | the event loop on its linked lists, event by event against `Scheduler` |
| `CondQueues.dfy` | the linked lists of the conditions |
| `ThreadRuns.dfy` | a thread on all its linked lists: on every run whose timer is its wheel it goes through the states of `Scheduler` and returns what they say |
| `SharedStack.dfy` | stack switching on shared stack memory, against private stacks |
| `CoroutinePool.dfy` | the worker pool: `Run` ends with every task handled once |
| `TaskQueue.dfy`, `LogQueue.dfy` | the double-buffered queues with their threads, locks and conditions |
| `SecondsWheel.dfy` | the seconds wheel on values, against a sorted agenda of due ticks |
| `TimeRound.dfy` | the same wheel with its linked nodes, proved against `SecondsWheel` |
| `KeepAlive.dfy` | requests, ticks and closes interleaving over keep-alive timers |
| `EnvTable.dfy` | per-coroutine environment tables, against one map for each coroutine |
| `HookedWrite.dfy` | the write and send loop against any kernel |
| `HttpParser.dfy` | the request parser, against a printer |
| `Sequences.dfy`, `Ring.dfy`, `Options.dfy` | shared facts |

What the source updates in place is a class with the same fields. What several threads or coroutines
do at once is a transition system: a state, an event for every step that others can see, a predicate
that says when the event can happen and a function that says what it does. Clock readings, kernel
answers, handlers and the choice of who runs next are parameters or events, so a theorem about every
run is about every clock, every kernel and every schedule.

Results where the code does not do what one would expect, each with the exact condition over all
inputs and an input that goes wrong:

- A sweep of the millisecond wheel narrows the clock gap to 32 bits. It delivers what is due if and
  only if the gap is not one that narrowing spoils for what the wheel holds
  (`TimerWheel.SweepsRight` in `TimerWheel.TakeIsDue`); gaps of 2^31 - 1 and of 2^32 ms go
  wrong (`TimerWheel.LongGapsGoWrong`). The start index leaves the array if and only if it is 0 and
  the gap is one short of a multiple of 2^32 ms (`TimeoutWheel.IndexLeavesTheArray`,
  `TimeoutWheel.LongGapLeavesTheArray`).
- An insertion narrows the distance in the same way. An accepted item is where its deadline belongs
  if and only if that is within one turn of the start (`TimerWheel.AddIsInsert`); `TimerWheel.WheelIsQueue` lifts the
  conditions on sweeps and insertions to runs of the wheel. At the caller: a
  condition wait of `ms` milliseconds is refused or put in its place if and only if its deadline is
  less than 2^31 ms after the last sweep (`TimerWheel.WaitAdmission`). The longest wait that an `int`
  allows goes wrong one millisecond after a sweep: it is over after half a minute
  (`TimerWheel.LongWaitMisplaced`), and on a new thread it is put before the array
  (`TimeoutWheel.LongWaitLeavesTheArray`). Over runs, the timer is what the wheel holds if and only if
  there is no such wait (`SchedulerWheel.TimerIsTheWheel`, `SchedulerWheel.LongWaitGoesWrong`).
- A poll that the wheel refuses leaves its epoll registrations behind. None dangles afterwards if and
  only if the call is accepted or has nothing to register (`SchedulerRefusals.PollLeavesNothingIff`,
  over runs `SchedulerRefusals.ThreadNeverDanglesIff`); a poll with timeout -1 goes wrong
  (`SchedulerRefusals.RefusedPollGoesWrong`).
- `Run` keeps the number of tasks in 32 bits: with a positive multiple of 2^32 tasks it handles none
  (`CoroutinePool.Pool.Run`).
- The seconds wheel makes at most one turn less a slot after a gap. Its ticks are seconds if and only
  if every gap between two readings is less than the number of slots (`SecondsWheel.TicksAreSeconds`),
  and a longer one leaves the last slot unserved (`SecondsWheel.GapServesAll`,
  `SecondsWheel.LongGapLeavesOne`).
- The task queue delivers without stalling if and only if it has room for at least one task
  (`TaskQueue.NeverStallsIffCapacity`; the stall is `TaskQueue.NoCapacityStalls`).
- The parser drops one character after the colon of a header field. A field comes back if and only if
  exactly one white-space character is there (`HttpParser.FieldIffOneSpace`), where section 5 of
  RFC 9112 makes it optional; "Connection:keep-alive" and an empty value directly after the colon go
  wrong (`HttpParser.SpaceMatters`, `HttpParser.EmptyValueMatters`).

## Model

| member | source | states |
|---|---|---|
| `IntrusiveList.RemoveFromLink` | libco/co_routine.cpp:162-202 | the list loses exactly this item, keeps the order of the others and stays well formed in both directions; an item in no list is left alone |
| `IntrusiveList.AddTail` | libco/co_routine.cpp:204-224 | the item becomes the last of the list, unless some list has it already; then nothing changes |
| `IntrusiveList.PopHead` | libco/co_routine.cpp:225-249 | the first item leaves the list and belongs to none afterwards |
| `IntrusiveList.Join` | libco/co_routine.cpp:252-280 | the first list becomes the concatenation, owned throughout by it, and the second is empty |
| `IntrusiveList.Apart` | libco/co_routine.cpp:162-202 | well-formed lists share no item, because an item names its list |
| `TimerWheel.SweepCountIsRight` | libco/co_routine.cpp:512-523 | over all gaps the narrowed slot count is never above what is due, and equals it if and only if the gap plus one, reduced to 32 bits, is not negative and not less than what is due |
| `TimerWheel.AddIsInsert` | libco/co_routine.cpp:442-489 | over all deadlines an accepted insertion puts the item behind everything due no later and before everything due later if and only if the deadline is within one turn of the start |
| `TimerWheel.WaitAdmission` | libco/co_routine.cpp:1444-1462 | for every `int` of milliseconds, within 2^31 ms of the last sweep, a condition wait is refused or inserted as the queue would if and only if its deadline is less than 2^31 ms after the sweep |
| `TimerWheel.LongWaitMisplaced` | libco/co_routine.cpp:471-486 | a wait of 2^31 - 1 ms begun one millisecond after the start is accepted, lands in slot 36352 and is swept out after half a minute |
| `TimerWheel.TakeIsDue` | libco/co_routine.cpp:498-534 | over all gaps a sweep delivers exactly what is due, in order, and leaves the rest on time, if and only if it counts the due slots, or returns early with the wheel empty, or counts too few with nothing beyond; the jump may exceed the wheel |
| `TimerWheel.ShortGapSweepsRight` | libco/co_routine.cpp:512-523 | less than 2^31 ms after the start every sweep is right |
| `TimerWheel.LongGapsGoWrong` | libco/co_routine.cpp:512-534 | 2^31 - 1 ms after the start nothing is delivered although an item is due; 2^32 ms after it one slot is swept, and a due item stays behind in a wrong slot |
| `TimerWheel.CancelIsWithout` | libco/co_routine.cpp:162-202 | unlinking an item from its slot takes it out of the queue and moves nothing else |
| `TimerWheel.StepRefines` | libco/co_routine.cpp:442-534 | an operation keeps items in the slot of their deadline and does to the queue what the priority queue does, if and only if narrowing does not spoil it |
| `TimerWheel.WheelIsQueue` | libco/co_routine.cpp:442-534 | a run of accepted insertions, cancellations and sweeps stays in step with a stable priority queue if and only if narrowing spoils no operation of it, and then delivers the same, sweep by sweep |
| `TimerWheel.QueueDelivers` | libco/co_routine.cpp:498-534 | each sweep of the queue removes all and only what has expired, earliest first |
| `TimerWheel.InsertSorted` | libco/co_routine.cpp:442-489 | insertion keeps the queue sorted and adds one element |
| `TimerWheel.PollAdmission` | libco/co_routine.cpp:1139-1142 | over all gaps a poll is accepted if and only if its timeout is not negative and the distance of its deadline, at most 40000 ms from now, from the last sweep, reduced to 32 bits, is less than one turn or negative; always within 20 seconds of the sweep |
| `TimeoutWheel.Timeout.constructor` | libco/co_routine.cpp:418-429 | a fresh wheel has distinct empty lists and starts at the clock |
| `TimeoutWheel.Timeout.AddTimeout` | libco/co_routine.cpp:442-489 | while the index computed is in the array, the array of lists changes as the wheel on values does, with the same return code; all other lists are untouched; a refused item stays unlinked |
| `TimeoutWheel.Timeout.Sweep` | libco/co_routine.cpp:525-531 | the first slots, counted from the start index and wrapping, are emptied into the result in order |
| `TimeoutWheel.Timeout.Advance` | libco/co_routine.cpp:533-533 | moving the start index on rotates the ring |
| `TimeoutWheel.Timeout.Retreat` | libco/co_routine.cpp:533-533 | with no slot counted a positive start index goes one back and the ring with it |
| `TimeoutWheel.IndexLeavesTheArray` | libco/co_routine.cpp:512-533 | a sweep that does not return early moves the start index below 0 if and only if it is at 0 and the gap is one short of a multiple of 2^32 ms |
| `TimeoutWheel.KeepsIndexIff` | libco/co_routine.cpp:512-533 | what `TakeAllTimeout` requires, said of the clock: the start index is not 0, or the gap is not such a one |
| `TimeoutWheel.LongGapLeavesTheArray` | libco/co_routine.cpp:533-533 | a new thread first swept 2^32 - 1 ms after its start has start index -1, and an item due at once would be put before the array |
| `TimeoutWheel.WaitInArray` | libco/co_routine.cpp:486-486 | the list of a condition wait is in the array if and only if the deadline is less than 2^31 ms after the start, or the start index is large enough, or the index falls on 0 |
| `TimeoutWheel.LongWaitLeavesTheArray` | libco/co_routine.cpp:471-486 | on a new thread a wait of 2^31 - 1 ms begun one millisecond after the start is accepted and put 23648 lists before the array |
| `TimeoutWheel.Timeout.TakeAllTimeout` | libco/co_routine.cpp:498-534 | while the start index stays in the array, what is appended to the result and the wheel left behind are those of the wheel on values, early return and zero count included |
| `EventLoop.Epoll.constructor` | libco/co_routine.cpp:1073-1087 | a thread starts with an empty wheel of 60000 slots and empty lists |
| `EventLoop.Epoll.Schedule` | libco/co_routine.cpp:442-489 | an insertion into the wheel of the thread, its index being in the array, leaves the other lists alone |
| `EventLoop.Epoll.Remove` | libco/co_routine.cpp:162-202 | whichever list of the thread has the item loses it, and every other list, all slots included, stays as it is |
| `EventLoop.Epoll.Activate` | libco/co_routine.cpp:1404-1418 | an item goes from wherever it is to the end of the active list |
| `EventLoop.Epoll.OnPollPreparePfn` | libco/co_routine.cpp:938-962 | each event is counted, and only the first one moves the poll |
| `EventLoop.Epoll.Mark` | libco/co_routine.cpp:1022-1029 | everything that timed out is marked, and no list changes |
| `EventLoop.Epoll.Sweep` | libco/co_routine.cpp:1016-1032 | all that is due goes, marked and in due order, behind what events have activated; the timeout list is empty again |
| `EventLoop.Epoll.PopActive` | libco/co_routine.cpp:1034-1051 | the item that is served next belongs to no list while it is served |
| `SchedulerSafety.StepKeeps` | libco/co_routine.cpp:678-1472 | every event of the scheduler keeps the invariant |
| `SchedulerSafety.PrepareKeeps` | libco/co_routine.cpp:938-962 | handling one epoll event keeps the invariant, by which each poll is in exactly one list and its count is that of its events |
| `SchedulerSafety.SweepKeeps` | libco/co_routine.cpp:1016-1029 | the sweep keeps the invariant |
| `SchedulerSafety.SweepMarks` | libco/co_routine.cpp:1016-1029 | the sweep moves exactly the waits in the wheel whose time is over, polls and condition waits, and marks exactly those |
| `SchedulerSafety.DispatchKeeps` | libco/co_routine.cpp:1034-1051 | serving an item keeps the invariant |
| `SchedulerSafety.DispatchEnds` | libco/co_routine.cpp:1034-1051 | serving an item resumes the one coroutine that waits on it, ends its wait once, and leaves it in no list, no condition queue and no registration |
| `SchedulerRuns.OneWakePerSuspension` | libco/co_routine.cpp:1137-1288 | in every reachable state a suspended coroutine has one wait, in at most one list and still reachable by an event, a deadline or a signal; every wait that is gone was ended by exactly one resume, and a refused poll by none |
| `SchedulerRuns.NoStaleRegistration` | libco/co_routine.cpp:1181-1287 | an epoll registration leads to a poll that its coroutine is suspended in if and only if it does not lead to a poll that was refused |
| `SchedulerRuns.DrainNeverSticks` | libco/co_routine.cpp:1034-1051 | in every reachable draining state at depth one the head of the active list can be served, or there is none and the round can end |
| `SchedulerRefusals.PollLeavesNothingIff` | libco/co_routine.cpp:1181-1249 | for every reachable state and every call, no registration dangles after it if and only if none did before and the call is accepted or every descriptor is negative, registered already or refused by epoll |
| `SchedulerRefusals.ThreadNeverDanglesIff` | libco/co_routine.cpp:1181-1249 | on a run of a thread no registration ever dangles if and only if no refused poll of it had anything to register |
| `SchedulerRefusals.RefusedPollGoesWrong` | libco/co_routine.cpp:1231-1249 | a poll of one descriptor with timeout -1 is refused, and an epoll event may then name the poll that is gone |
| `SchedulerRefusals.RegisterNothing` | libco/co_routine.cpp:1181-1213 | a poll leaves the registrations as they are if and only if every descriptor is negative, registered already or refused by epoll |
| `SchedulerRefusals.RegistrationLasts` | libco/co_routine.cpp:1268-1287 | a registration leads to the same poll until a poll on its descriptor ends, be it this one or another |
| `SchedulerRefusals.RegistrationEnds` | libco/co_routine.cpp:1268-1287 | the event that ends such a poll, and no other, takes it away |
| `SchedulerRuns.PollReturns` | libco/co_routine.cpp:1277-1287 | a poll returns the number of its descriptors in the one epoll batch before it is resumed, and 0 if and only if its deadline ended the wait |
| `SchedulerRuns.StepStack` | libco/co_routine.cpp:678-731 | an event pushes one coroutine, pops one or leaves the call stack alone |
| `SchedulerRuns.ResumeReturns` | libco/co_routine.cpp:926-930 | while the stack stays at a depth, what is below does not change, so control comes back to the resumer, also from a coroutine that finishes |
| `SchedulerRuns.CallStackDiscipline` | libco/co_routine.cpp:678-731 | the main coroutine is at the bottom, nobody is on the stack twice, exactly those on it are active, and a yield always finds depth two |
| `SchedulerRuns.DeadlinesServed` | libco/co_routine.cpp:1016-1051 | a wait whose deadline a sweep finds passed has been ended, once, when that round of the loop is over |
| `SchedulerRuns.PollsAreAdmitted` | libco/co_routine.cpp:1226-1231 | a coroutine's poll is accepted if and only if its timeout is not negative and its deadline, at most 40000 ms from now, is within one turn of the sweep before |
| `SchedulerConds.SignalWakesLongest` | libco/co_routine.cpp:1404-1418 | in every reachable state a signal wakes exactly the coroutine that has waited longest, also one its deadline has activated already |
| `SchedulerConds.BroadcastWakesAll` | libco/co_routine.cpp:1423-1436 | a broadcast leaves nobody waiting, and all go to the end of the active list in the order in which they began to wait |
| `SchedulerHistory.FinishedForGood` | libco/co_routine.cpp:539-554 | on every run, after a coroutine has finished no event resumes it, and neither user code nor the event loop ever has it on the call stack again |
| `SchedulerHistory.YieldedCanBeResumed` | libco/co_routine.cpp:706-721 | on every run a coroutine that has yielded stays off the call stack until user code resumes it, and that is possible if and only if user code runs and the stack has room |
| `SchedulerHistory.CreatedCanBeResumed` | libco/co_routine.cpp:678-698 | the same for a coroutine that has been created and not resumed yet |
| `SchedulerHistory.LoopEndsOnRequest` | libco/co_routine.cpp:1053-1060 | on every run the main coroutine runs its own code if and only if it has not called the event loop or the callback has ended the call since; a round is the last one if and only if its callback asks for that |
| `SchedulerHistory.EventsFirst` | libco/co_routine.cpp:1016-1032 | among the polls that a round serves, all that the kernel reported come before all whose deadline has passed |
| `SchedulerHistory.PollEndsOnTime` | libco/co_routine.cpp:1139-1228 | an accepted poll that asks for t ms waits for t ms, or 40000 if t is more: on every run no sweep before that moment ends it, so it has not timed out, and when the first round is over that swept at that moment or later it has been ended |
| `SchedulerHistory.TimedWaitEndsOnTime` | libco/co_routine.cpp:1444-1462 | a condition wait with a deadline ends in the same way that many ms after it began |
| `SchedulerHistory.UntimedWaitNeverTimesOut` | libco/co_routine.cpp:1444-1462 | no deadline ever ends a condition wait without one |
| `SchedulerWheel.StepMatches` | libco/co_routine.cpp:442-534 | a scheduler event, done to the wheel as the code does it, keeps the timer equal to what the slots hold in order if and only if it is not a condition wait with a deadline 2^31 ms or more after the sweep; a sweep expires the same waits on both |
| `SchedulerWheel.TimerIsTheWheel` | libco/co_routine.cpp:976-1062 | on a run of a thread the scheduler's timer is at all times its 60000-slot wheel, with each wait in the slot of its deadline, if and only if the run has no such wait |
| `SchedulerWheel.LongWaitGoesWrong` | libco/co_routine.cpp:1444-1462 | a run of three events, the last a wait of 2^31 - 1 ms, after which it is not |
| `EventLists.ActivateMirrors` | libco/co_routine.cpp:162-224 | moving a wait's item to the active list does to the sequences what the state's activation does, no other item being taken for it |
| `EventLists.SweptMirrors` | libco/co_routine.cpp:498-534 | a sweep of linked items delivers the waits that the state expires, and the rest stays mirrored |
| `EventLists.MarkedAlike` | libco/co_routine.cpp:1022-1029 | an item is in the timeout list if and only if its wait has expired |
| `EventLists.PollOutcome` | libco/co_routine.cpp:1137-1250 | the wheel of linked items accepts a poll if and only if the state does, and what is left behind mirrors the state in both cases |
| `EventLists.TimedWaitOutcome` | libco/co_routine.cpp:1444-1462 | the wheel of linked items accepts a condition wait with a deadline if and only if the state does, and then mirrors the state if and only if the deadline is less than 2^31 ms after the sweep |
| `EventLoopRuns.Thread.Prepare` | libco/co_routine.cpp:988-1009 | the loop over a batch of epoll events, on the linked lists, leads to the state after all of them |
| `EventLoopRuns.Thread.SweepWheel` | libco/co_routine.cpp:1012-1029 | taking and marking what has expired, on the linked lists, leads to the state after the sweep |
| `EventLoopRuns.Thread.ServeHead` | libco/co_routine.cpp:1034-1051 | serving the head of the active list leads to the state after it, and co_poll_inner then returns the poll's count of events |
| `EventLoopRuns.Thread.CoPoll` | libco/co_routine.cpp:1137-1260 | AddTimeout returns 0 to co_poll_inner if and only if the state accepts the poll, and what co_poll_inner leaves behind up to its yield, or its refusal, is the state after it |
| `EventLoopRuns.Thread.CondTimedWait` | libco/co_routine.cpp:1444-1462 | a condition wait, with a deadline less than 2^31 ms after the sweep, without one, and when the deadline is refused, does to the lists of the event loop what it does to the state; 0 means that it begins |
| `EventLoopRuns.Thread.Step` | libco/co_routine.cpp:678-1062 | every event that concerns no condition does to the lists of the event loop what it does to the state |
| `CondQueues.Conditions.Enqueue` | libco/co_routine.cpp:204-224 | a new node becomes the last of its condition's list, and no other list changes |
| `CondQueues.Conditions.PopIfAny` | libco/co_routine.cpp:1486-1494 | co_cond_pop takes the wait that is first in the condition's list, if there is one |
| `CondQueues.Conditions.Remove` | libco/co_routine.cpp:1468-1469 | a wait that ends leaves its condition's list, if it is still there, and its node is given back |
| `ThreadRuns.CondTimedWait` | libco/co_routine.cpp:1444-1466 | a condition wait on linked lists, those of the event loop and that of the condition, leads to the state after it |
| `ThreadRuns.CondSignal` | libco/co_routine.cpp:1404-1418 | a signal moves the first node's wait from its condition's list to the end of the active list, as in the state |
| `ThreadRuns.CondBroadcast` | libco/co_routine.cpp:1423-1436 | the loop of a broadcast ends, and leads to the state after all its signals |
| `ThreadRuns.Dispatch` | libco/co_routine.cpp:1034-1051 | serving the head of the active list leads to the state after it: the wait leaves its condition's list, and returns what it returns there |
| `ThreadRuns.Execute` | libco/co_routine.cpp:678-1472 | over every run of any number of coroutines whose timer is the wheel by `TimerIsTheWheel`, all linked lists, the marks and the event counts are those of the state, no list sharing a node with another, and every wait returns what it returns there |
| `ThreadRuns.RunThread` | libco/co_routine.cpp:976-1288 | so a thread on linked lists, from its start, returns from its waits what the transition system says, in order, on every such run |
| `SharedStack.FindsWhatItLeft` | libco/co_routine.cpp:763-824 | with private stacks, a stack changes only by what its owner computes |
| `SharedStack.FindsLastWork` | libco/co_routine.cpp:763-824 | with private stacks a coroutine finds what its last computation left, whatever others do in between |
| `SharedStack.ControlComesBack` | libco/co_routine.cpp:678-721 | a resume runs the coroutine named; when it and all above it have yielded, the one that resumed it runs, with the call stack it had |
| `SharedStack.Env.Claim` | libco/co_routine.cpp:772-799 | after taking over a stack memory the bytes of every other coroutine are in the memory it occupies or in its buffer |
| `SharedStack.Env.CoctxSwap` | libco/co_routine.cpp:801-802 | the switch saves the registers of one coroutine and restores those of the other |
| `SharedStack.Env.SwapIn` | libco/co_routine.cpp:809-823 | on return from the switch the coroutine's own bytes are back in place |
| `SharedStack.Env.CoSwap` | libco/co_routine.cpp:763-824 | switching changes who runs and nobody's live stack |
| `SharedStack.Env.SaveStackBuffer` | libco/co_routine.cpp:737-754 | the buffer holds the bytes from the stack pointer to the base |
| `SharedStack.Env.CoResume` | libco/co_routine.cpp:678-698 | a resume does what it would do with private stacks |
| `SharedStack.Env.CoYield` | libco/co_routine.cpp:706-721 | a yield does what it would do with private stacks |
| `SharedStack.Env.Execute` | libco/co_routine.cpp:678-824 | over every run of resumes, yields and computations, on any number of coroutines and stack memories, the running coroutine sees after each step exactly what it would see with a stack of its own |
| `CoroutinePool.CeilDivIsCeiling` | CoroutinePool.cpp:72-89 | the number of batches is n over the pool size, rounded up |
| `CoroutinePool.Pool.Start` | CoroutinePool.cpp:9-18 | after the start every worker waits |
| `CoroutinePool.Pool.PutTask` | CoroutinePool.cpp:20-23 | a task joins the end of the queue |
| `CoroutinePool.Pool.GoIdle` | CoroutinePool.cpp:55-56 | the worker waits, behind all that wait already, and the idle counter stays the length of the condition queue |
| `CoroutinePool.Pool.Serve` | CoroutinePool.cpp:60-62 | the front task starts; it is handled at once if it never suspends, and otherwise the worker is suspended with all of its waits to come |
| `CoroutinePool.Pool.WorkerLoop` | CoroutinePool.cpp:50-63 | a worker gives up control only inside a handler or with the queue empty |
| `CoroutinePool.Pool.CondSignal` | libco/co_routine.cpp:1404-1418 | the worker that has waited longest becomes active, last of those that are; with nobody waiting nothing changes |
| `CoroutinePool.Pool.Dispatch` | libco/co_routine.cpp:1034-1051 | serving an active worker leaves less to do, and leaves a task queued only if some worker is busy |
| `CoroutinePool.Pool.Round` | libco/co_routine.cpp:985-1061 | each turn of the event loop with a busy worker leaves strictly less to do |
| `CoroutinePool.Pool.EventLoop` | CoroutinePool.cpp:27-43 | the loop ends, and only when every worker waits and no task is left |
| `CoroutinePool.Pool.SignalIdle` | CoroutinePool.cpp:75-82 | one worker is signalled for each task while there are idle ones; without workers nothing changes |
| `CoroutinePool.Pool.Run` | CoroutinePool.cpp:66-92 | ends after ceil(n / co_num) rounds with all workers waiting and every task put so far started in order, suspended once for each of its waits and handled exactly once, unless the 32-bit count of tasks is 0 |
| `TaskQueue.StepKeeps` | Task.cpp:13-64 | every step of every thread keeps the lock, queue and sleep invariants |
| `TaskQueue.BoundedFifo` | Task.cpp:13-64 | tasks returned, then those in a consumer's hands, the consumer queue and the product queue are always the tasks pushed, in order, and neither queue exceeds the capacity |
| `TaskQueue.PushedAsGiven` | Task.cpp:27-41 | on every run, what the calls of a producer were given, one after the other, is what it has pushed, in that order, followed by what it has in hand |
| `TaskQueue.StuckIsQuiet` | Task.cpp:13-64 | with room for one task there is no deadlock and no lost wake-up: when no thread can move, nobody waits for anything another could give |
| `TaskQueue.NeverStallsIffCapacity` | Task.cpp:13-64 | for any capacity, with consumers and producers there, every reachable stuck state is quiet if and only if the capacity is positive |
| `TaskQueue.MoveProgress` | Task.cpp:13-64 | every step of a call in progress or of the swapper strictly lowers a measure |
| `TaskQueue.NoEndlessSchedule` | Task.cpp:13-64 | so no schedule of the calls in progress is endless, fair or not |
| `TaskQueue.EverythingDelivered` | Task.cpp:13-64 | when the threads have run until none can move and a consumer still waits, every task offered has been returned by take_task |
| `TaskQueue.AllGivenAreReturned` | Task.cpp:13-64 | the same from the start of any run, told from the calls alone: the tasks returned are those that the calls of put_task were given |
| `TaskQueue.NoCapacityStalls` | Task.cpp:32-36 | with capacity 0 and any numbers of producers and consumers there is a run after which no thread can move, while a consumer waits and a producer has a task for it |
| `LogQueue.StepKeeps` | LogFile.cpp:29-79 | every step of every thread keeps the invariant |
| `LogQueue.WrittenInPutOrder` | LogFile.cpp:29-79 | what is written is always a prefix of what is put, and the rest is in the two queues, in order |
| `LogQueue.PutAsGiven` | LogFile.cpp:29-35 | on every run, what the calls of a thread were given is what it has put, in that order, and the message it has in hand |
| `LogQueue.StuckIsWritten` | LogFile.cpp:29-79 | when no thread can move every message has been written |
| `LogQueue.MoveProgress` | LogFile.cpp:29-79 | every step strictly lowers a measure |
| `LogQueue.NoEndlessSchedule` | LogFile.cpp:29-79 | so the messages put are written after finitely many steps |
| `SecondsWheel.PutIsInsert` | TimeRound.h:194-217 | an insertion puts the item behind all that is due no later |
| `SecondsWheel.TickIsFront` | TimeRound.h:160-168 | a tick moves exactly what is due on it, and turns the wheel by one |
| `SecondsWheel.UpdateIsMove` | TimeRound.h:87-135 | an update moves one item to its new tick, or nothing if the tick is the same, and keeps the order of all others |
| `SecondsWheel.StepGood` | TimeRound.h:69-217 | every operation keeps delivered and waiting items together equal to the agenda, cut at the clock |
| `SecondsWheel.WheelFollowsAgenda` | TimeRound.h:69-217 | on every run exactly the items due before the clock have been delivered, in due order and first come first served within a tick, across wrap-around and clamped catch-up |
| `SecondsWheel.DeliveredOnce` | TimeRound.h:176-217 | on a wheel of n slots an item added with threshold t > 0 is delivered on the (t+1)-st tick from then on, on the n-th if t is n or more: once, on no other tick, and never lost |
| `SecondsWheel.DeliveredOnceUpdated` | TimeRound.h:87-135 | the same for an item updated to time t, counted from its last update |
| `SecondsWheel.TicksAreSeconds` | TimeRound.h:146-174 | over any clock readings the wheel is never ahead of the clock, and its ticks are seconds if and only if every gap `fun` sees is less than the number of slots |
| `SecondsWheel.GapServesAll` | TimeRound.h:151-168 | after a gap all slots whose time is over have been served if and only if the gap is less than the number of slots or the last slot was empty |
| `SecondsWheel.LongGapLeavesOne` | TimeRound.h:151-168 | on six slots an item for five ticks is still there after six seconds |
| `SecondsWheel.UpdatableIsInWheel` | TimeRound.h:87-90 | the position an item records is the slot it is in |
| `TimeRound.List.Append` | TimeRound.h:197-216 | a new node becomes the last of its slot |
| `TimeRound.List.Attach` | TimeRound.h:122-134 | a node from another slot becomes the last of its new one |
| `TimeRound.List.Detach` | TimeRound.h:100-121 | the slot loses this node and links its neighbours |
| `TimeRound.List.Absorb` | TimeRound.h:69-85 | a slot goes to the end of the timeout list, which is linked forward only, and is empty |
| `TimeRound.List.Empty` | TimeRound.h:219-233 | every node of the timeout list is destroyed, once and in order |
| `TimeRound.Wheel.constructor` | TimeRound.h:59-67 | an empty wheel with one slot more than the longest time |
| `TimeRound.Wheel.AddTimeRoundItemNode` | TimeRound.h:176-217 | the linked wheel changes as the wheel on values does; a node without positive time is destroyed at once, a null one ignored |
| `TimeRound.Wheel.UpdateTimeRoundItemNode` | TimeRound.h:87-135 | the linked wheel changes as the wheel on values does |
| `TimeRound.Wheel.AddToTimeOutList` | TimeRound.h:69-85 | one slot is emptied into the timeout list, all others stay |
| `TimeRound.Wheel.Fun` | TimeRound.h:146-174 | one iteration destroys what the clamped number of ticks delivers, in that order |
| `KeepAlive.StepKeeps` | Httpdata.cpp:27-51 | every step of every thread keeps the invariant |
| `KeepAlive.StepKeepsLatest` | channel.cpp:51-59 | after every step a timer that still holds its channel belongs to the channel's last request and is the one the channel names |
| `KeepAlive.OnlyTheLatestCloses` | TimeRoundItem.h:16-43 | over every interleaving at most one timer of a channel can close it, that of its last request; destroying any other does nothing |
| `KeepAlive.IdleClosesOnSixthTick` | Httpdata.cpp:36-42 | on a wheel of more than five slots a connection left alone after a keep-alive request is not closed before the sixth tick from then on, and has been closed, by that request's timer and once, when the sixth tick has been served |
| `KeepAlive.NoneForgotten` | Httpdata.cpp:27-51 | in every reachable state a connection that is still open after a request has asked for keep-alive and has a timer in the wheel, due within the next six ticks |
| `KeepAlive.OpenUntilClosed` | Httpdata.cpp:27-58 | on every run a connection is open if and only if it has been accepted and neither a handler nor a timer has closed it since, and the requests being handled are those read and not ended |
| `KeepAlive.KeepAliveDecides` | Httpdata.cpp:36-49 | on every run, when a request has ended, its connection can get a timer if and only if one of its requests has asked for keep-alive; otherwise the one thing that can happen to it is that it is closed, and no timer holds it then |
| `EnvTable.CompareChains` | libco/co_hook_sys_call.cpp:772-775 | the order of names is transitive |
| `EnvTable.Bsearch` | libco/co_hook_sys_call.cpp:833-833 | in a strictly ascending table the search finds a name if and only if it is there |
| `EnvTable.KeepIfNew` | libco/co_hook_sys_call.cpp:802-810 | a round of the loop keeps the next entry if its name is new |
| `EnvTable.DedupInPlace` | libco/co_hook_sys_call.cpp:798-812 | in place, one entry of each run of equal names is left |
| `EnvTable.DedupStrict` | libco/co_hook_sys_call.cpp:798-812 | of a sorted table that leaves a strictly ascending one |
| `EnvTable.MakeList` | libco/co_hook_sys_call.cpp:786-813 | the list ascends strictly and has exactly the names given that are neither null nor empty |
| `EnvTable.Env.SetEnvList` | libco/co_hook_sys_call.cpp:780-815 | only the first call has an effect, and what it lists is the set of those names |
| `EnvTable.Dup` | libco/co_hook_sys_call.cpp:760-770 | a table of the coroutine's own with the same entries |
| `EnvTable.Env.OwnTable` | libco/co_hook_sys_call.cpp:825-829 | making the table on first use changes no variable of any coroutine |
| `EnvTable.Env.SetEnv` | libco/co_hook_sys_call.cpp:817-848 | answers as the map does, `overwrite == 0` included, and touches only this coroutine's map |
| `EnvTable.Env.UnsetEnv` | libco/co_hook_sys_call.cpp:849-880 | answers as the map does and touches only this coroutine's map |
| `EnvTable.Env.GetEnv` | libco/co_hook_sys_call.cpp:881-906 | answers as the map does and changes no variable |
| `EnvTable.Env.Execute` | libco/co_hook_sys_call.cpp:780-906 | any interleaving of calls by any coroutines is answered as the maps answer it |
| `EnvTable.OthersUnnoticed` | libco/co_hook_sys_call.cpp:817-906 | leaving out all calls of all other coroutines changes none of a coroutine's answers |
| `EnvTable.HistoryDecides` | libco/co_hook_sys_call.cpp:881-906 | with hooks on at the end, getenv of a listed name finds what the coroutine's own setenv and unsetenv history says, its calls with hooks off not counting |
| `EnvTable.PassedOnIff` | libco/co_hook_sys_call.cpp:817-906 | on every run a call about a variable goes to the C library if and only if, when it is made, the coroutine's hooks are off, no list has been given or the first list lacks the name |
| `EnvTable.UnhookedUnnoticed` | libco/co_hook_sys_call.cpp:817-906 | every call made with hooks off goes to the C library, and leaving all of them out of a run changes no other answer and no variable |
| `EnvTable.UnlistedUnnoticed` | libco/co_hook_sys_call.cpp:817-906 | every call about a name that is not on the list goes to the C library, and leaving all of them out of a run changes no other answer and no variable |
| `HookedWrite.Write` | libco/co_hook_sys_call.cpp:400-453 | what the kernel accepts is a prefix of the buffer, once and in order, and the result is its length, or the last answer if nothing was accepted; send (525-574) is the same loop |
| `HookedWrite.CompleteMeans` | libco/co_hook_sys_call.cpp:415-452 | a short positive count means the last answer was a refusal, nothing accepted means no positive answer, and a call makes at most two more system calls than it writes bytes |
| `HookedWrite.FirstRefusalIsRepeated` | libco/co_hook_sys_call.cpp:415-449 | there is one system call if and only if nothing is to be written or the first answer is 0 or all; so a refused first attempt is repeated, and no later one is |
| `HttpParser.HandleRequestLine` | Httpdata.cpp:173-203 | ends on every input, reads only what was received, and splits at the first two spaces and the end of the line |
| `HttpParser.HandleRequestHead` | Httpdata.cpp:205-226 | ends on every input, reads only what was received, and assigns the fields one after the other up to a blank line |
| `HttpParser.LastValueWins` | Httpdata.cpp:222-222 | the map has exactly the names that occur, each with its last value |
| `HttpParser.RequestLineAt` | Httpdata.cpp:173-198 | a printed request line comes back if and only if no part contains its own separator |
| `HttpParser.OneFieldAt` | Httpdata.cpp:211-223 | a field comes back without the one character after its colon, whatever that is |
| `HttpParser.FieldIffOneSpace` | Httpdata.cpp:211-223 | a field line with white space w after the colon gives back name and value and ends at the line's end if and only if w is one character |
| `HttpParser.SpaceMatters` | Httpdata.cpp:211-223 | "Connection:keep-alive" loses the first letter of its value |
| `HttpParser.EmptyValueMatters` | Httpdata.cpp:211-223 | with an empty value directly after the colon the end of the line is passed over, and the next field goes wrong too |
| `HttpParser.FieldsInvert` | Httpdata.cpp:205-226 | printed fields come back, in order, if and only if no part contains what ends it and no field begins like a blank line; the parser then stops behind the first character of the blank line |
| `HttpParser.ParseInverts` | Httpdata.cpp:173-226 | parsing a printed request gives back method, target, version and fields, whatever the body is, if and only if no part contains what ends it and no field begins like a blank line |

## Left out

- TimeoutWheel.Timeout.AddTimeout: requires that the index computed at libco/co_routine.cpp:486 is in the array (`InArray`), which it need not be when the narrowed distance is negative; what the code then writes to is not modelled.
- TimeoutWheel.Timeout.TakeAllTimeout: requires that the start index stays in the array (`KeepsIndex`); `IndexLeavesTheArray` says which gaps take it out.
- SchedulerRuns.OneWakePerSuspension: the transition system keeps the timer as a queue, which is the code's wheel exactly on the runs without a condition wait of 2^31 ms or more after the sweep (`SchedulerWheel.TimerIsTheWheel`); after such a wait the code may have written before the array, and the result is about the queue alone.
- SchedulerRuns.DeadlinesServed: the same; the code ends such a wait early.
- SchedulerRuns.PollsAreAdmitted, NoStaleRegistration, DrainNeverSticks, StepStack, ResumeReturns, CallStackDiscipline, and the results of SchedulerConds, SchedulerHistory and SchedulerRefusals: the same, for the runs that have such a wait.
- Scheduler: the event loop sweeps, and the clock is read, at least every 2^31 ms, and the clock never runs back; `TimerWheel` says what longer gaps do.
- SchedulerRefusals.PollLeavesNothingIff: assumes a deadline that is not before time 0; a run ends before an epoll event names a registration that dangles, since the code then works on freed memory.
- SchedulerRuns.PollReturns: does not say which event bits are returned in `revents`, and is about the runs that `OneWakePerSuspension` is about.
- KeepAlive.StepKeeps: the steps of adding a timer, of a tick and of destroying a node are atomic, which is an assumption: the lock guard of TimeRound.cpp:8-16 unlocks twice.
- KeepAlive.KeepAliveDecides: whether a request asks for keep-alive, which is its Connection field (Httpdata.cpp:66-71), is given with the event that reads it.
- TimeRound.Wheel.UpdateTimeRoundItemNode: requires a node that is in the wheel, a target index in the vector and a target slot that was used before, as the code does without checking; the runs of `SecondsWheel` have no negative times.
- SharedStack.Env.CoSwap: the saved stack pointer stands for the address of the local `c` that the source keeps; the part of co_swap's own frame below `c` is not saved, which is why the source reads `env` again after the switch, and does not show here.
- SharedStack.Env.CoctxSwap: the register switch itself (coctx_swap.S) is taken to save and restore the stack pointer and the place to continue.
- SharedStack.Env.Execute: no coroutine is freed, since co_free leaves a freed occupant named in its stack memory; the round-robin choice of a stack memory is a parameter.
- CoroutinePool.Pool.Run: a handler is any finite number of suspensions of bounded length; with no workers and a task count above 0 the outer loop repeats a turn that changes nothing, so `Run` is not called then.
- HookedWrite.Write: the polls between two attempts and their timeouts do not show, since the loop ignores what they return.
- EnvTable.Env.SetEnv: calloc is taken to return memory also for an empty list, and the process environment behind the C library is not modelled.
- ThreadRuns.Execute: the registrations of epoll are a map, which is the kernel's, and the number of a wait stands for the pointers that lead to it; a condition is made when it is first used.
- SchedulerHistory.FinishedForGood: a co_resume of a finished coroutine by user code is no event; the source does not check for it, and control would run off the end of the coroutine's function.
- A thread resumes only coroutines that are new or have yielded by themselves; resuming one that is suspended in a poll or a wait is the caller's error.
- A nested co_eventloop inside a coroutine, and the fallback to the system's poll when epoll refuses a single descriptor.
- Items without a prepare function, which only code outside the repository registers.
- The callback at the end of each round of the event loop, beyond whether it stops the loop.
- The number of stack frames, the 128 entries of the call stack being a bound that resumes respect.
- Memory release, apart from the destruction of a timer item, which fires it.
- Requests that suspend between separating the old timer and adding the new one: there is nothing in between that suspends.
- A server without a seconds wheel: main.cpp:46-51 always makes one.
- The kqueue branch, sockets, accepting, event descriptors, file serving, page building, the log's text formatting, thread start-up and the epoll map of each thread.
