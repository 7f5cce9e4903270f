# A verified model of the server library's core

This project models, in Dafny, the parts of the library that carry its state, and proves what they keep
over whole runs. `dafny verify dfyconfig.toml` checks all of it.

| files | what they model |
|---|---|
| `MemoryPool`, `MemoryManager` | the small-object pool: size classes, the region that is cut into nodes, sixteen free lists linked through the blocks themselves |
| `Scheduler`, `SchedulerRuns`, `Schedule` | N workers on one task queue, coroutine states, pins, event contexts that hand work over |
| `Interest`, `InterestRuns`, `IoSchedule` | the interest in file descriptors: masks, contexts, the epoll operation chosen, the counter of awaited events |
| `Timer`, `TimerRuns`, `IdleLoop`, `TimerManager` | the deadline-ordered timers, polling and re-arming them, and the idle loop's sleep |
| `Expiry`, `Driving`, `Server` | what expired timers and file-descriptor events make the scheduler do, and runs of all three together |
| `LogPattern` | the compiler of log patterns |
| `Ipv4`, `Ipv6`, `Digits` | masks, broadcast addresses and the two printers |

Each part has the same shape. A module of values and functions says what one operation does. Lemmas about
those functions say what it means: an invariant, an independent specification, a round trip, and what
follows over every run. Where the source changes objects in place, a class with the source's fields has
one method for each operation, and every method is proved to do exactly what the function says
(`MemoryManager`, `Schedule`, `FdEvent`, `IoSchedule`, `TimerObject`, `TimerManager`); the two printers
and `explain` are methods with the source's loops.

## What the code does that its comments do not say

The model follows the code. Where an intended property fails, a lemma says for which inputs.

- **Pool.** `fill` (memory_pool.cpp:115-124) links the nodes it cut, unless it got only one, and then steps
  once past the last one before it writes the terminating null. `TerminatorOutside` says exactly when that
  word is outside the chunks. A refill asks for as many nodes as the chunk it buys holds, so there is never
  a tail: over every run each refill buys its chunk and writes that word outside it, and the branches of
  `allocate` that use part of a tail or put it on a list never run (`NeverLeftOver`,
  `EveryFillEndsOutside`). The model assumes what malloc gives: chunks are 8-byte aligned and at least one
  word apart. Nodes 2 to n of a refill are put on no list, so they are never handed out (`CarvedStays`).
  `delete_object` takes its list from the size of a pointer, so every block goes back to list 0
  (memory_pool.h:131); this is safe, and so is any list at or below the block's own class (`RecycleKeeps`).
- **Scheduler.** `coroutine::state::error | terminate` equals `error`, so the coroutine of a function task
  that has finished is set to `pause` (schedule.cpp:143-151). A coroutine that failed or was made for a
  function is therefore executed again when a token of it is left; only one that finished and was queued as
  a coroutine is not (`OverExactly`, `OverReentered`, `NeverAgain`). A coroutine that leaves to ready is
  queued again without its pin, and so is one whose event fires; `PinStep` says exactly what ends a pin.
- **Interest.** `RegisterEvent` sets the bit before it asks the kernel and does not take it back on failure
  (`RegisterExactly`). A second registration of a type overwrites a function with a function and a
  coroutine with a coroutine, and the first one is lost; a function and a coroutine are kept side by side
  (`RegistrationLosesExactly`). The context also keeps the calling thread's current scheduler (io.cpp:101),
  and only the thread that made or started the scheduler has one (schedule.cpp:18, :61); `run` does not set
  it on the workers. So the callback of a registration made on a worker is never handed over: firing it
  calls through a null pointer, which the model treats as getting stuck. `HandedOverExactly` says which
  contexts can be fired, and the runs of the whole server are those in which no report gets stuck, as in
  every run whose registrations all come from threads with a current scheduler (`NeverStuck`). The mask
  that `idle` sends back to the kernel is never initialised (io.cpp:224-228), so a descriptor that was
  registered edge triggered (`RegisterTells`) need not stay so, and the reported bits are not restricted to
  the awaited ones (`ReadyExactly`). The buffer for reports is released at the end of the first pass and
  not allocated again (io.cpp:242-245), so later passes of the same idle coroutine handle no events
  (`IoSchedule.Passes`).
- **Timers.** With `<=` as its comparator a `std::set` keeps ties but `find` never matches, so `DeleteTimer`
  deletes nothing (`FindNever`, `DeleteExactly`). `timer` inherits `enable_shared_from_this` privately
  (timer.h:16), so `shared_from_this` throws in `refresh` and `reset` before anything changes (C++11 leaves
  it undefined). The statements behind that call would leave a second entry of the same timer
  (`RestartedExactly`) and may leave the container out of order (`RestartedSorted`). Adding a timer object
  twice through the public `AddTimer` also leaves two entries; a poll then fires a cyclic timer once for
  each entry, and returns a null for each further entry of a one-shot timer (`RequeueTasks`). The second
  clock check in a poll compares the clock with itself, so a clock that was set back makes no difference to
  what a poll takes off (`VerdictNeverMatters`); `VerdictExactly` says when that is what the check is for.
  `Removed`, `Drop`, `Restart` and `RestartedAsMeant` are what the header means.
- **Log patterns.** A pattern that ends with a separator or bracket loses the letters of its last segment
  (`LastSegmentLost`); stray text drops everything behind it (`StrayText`); text without a header behind the
  last segment, as in `%f hello` or `%a%b`, where the second header is taken for a separator, makes
  `explain` read past the end of the pattern, and nothing else does (`PastEndExactly`). A separator inside
  a bracket makes the letters in front of the bracket count twice among the error items. `ExplainExactly`
  gives the items of every pattern.
- **IPv6 printer.** A first run of zeros that reaches the last group is dropped without `::`, so the text
  is not a valid address form, though it still determines the groups (`ValidIff`, `RoundTrip`).

## Model

| member | source | states |
|---|---|---|
| MemoryPool.ClearsLowBits | src/manager/memory_pool.cpp:91-93 | the source's 32-bit mask arithmetic rounds down to a multiple of 8 |
| MemoryPool.SizeClasses | src/manager/memory_pool.cpp:91-97 | for 1 to 128 bytes, rounding up gives the node size of one of sixteen classes, and class k fits exactly the sizes up to 8(k+1) |
| MemoryPool.TerminatorOutside | src/manager/memory_pool.cpp:115-124 | a refill writes its terminating null outside the chunks if and only if it just bought the chunk, or used up a tail of two to sixteen whole nodes; a single node is not written to |
| MemoryPool.EveryFillEndsOutside | src/manager/memory_pool.cpp:100-126 | after every run from the empty pool a refill buys a chunk of sixteen nodes, gets all of them, and writes its terminating null outside the chunks |
| MemoryPool.CarveKeeps | src/manager/memory_pool.cpp:133-145 | cutting n nodes off the tail moves its start by n nodes, leaves the lists alone and keeps the invariant |
| MemoryPool.CarveLeaves | src/manager/memory_pool.cpp:133-145 | cutting nodes changes neither size nor owner of a block that was there before |
| MemoryPool.CarvedNode | src/manager/memory_pool.cpp:133-145 | node k of the run is a new block of the requested size |
| MemoryPool.LeftOverClass | src/manager/memory_pool.cpp:147-154 | a left-over tail has exactly its class's node size, and that class is below the one being served |
| MemoryPool.FileTailKeeps | src/manager/memory_pool.cpp:147-154 | filing the left-over tail keeps the invariant |
| MemoryPool.RefillKeeps | src/manager/memory_pool.cpp:147-157 | filing the tail and taking a new chunk keeps the invariant and every block |
| MemoryPool.AllocateKeeps | src/manager/memory_pool.cpp:128-160 | allocate hands out between 1 and num new nodes in a row, touches no other block and keeps the invariant |
| MemoryPool.AllocateChunks | src/manager/memory_pool.cpp:128-160 | it asks malloc at most once, only when not one node fits, for exactly num nodes; and how many nodes it returns |
| MemoryPool.AllocateFiles | src/manager/memory_pool.cpp:147-154 | a tail too short for one node goes whole to the front of the list of its size, list left/8 - 1; no list changes otherwise |
| MemoryPool.PopKeeps | include/memory_pool.h:87-90 | popping a list for a request of its class keeps the invariant |
| MemoryPool.NewKeeps | include/memory_pool.h:71-92 | new_object returns a block that nobody held and that fits, changes no other block and keeps the invariant |
| MemoryPool.NewPops | include/memory_pool.h:71-92 | when the class list is not empty, its head is handed out and neither tail nor chunks change |
| MemoryPool.RefillBuys | src/manager/memory_pool.cpp:100-160 | in a state without a tail a refill buys a chunk of sixteen nodes, uses it up at once and hands out its first node |
| MemoryPool.ReusedFirst | include/memory_pool.h:118-135 | right after a delete, a new object of at most 8 bytes gets the freed block, and lists, tail and chunks are as before the delete |
| MemoryPool.RecycleKeeps | include/memory_pool.h:127-135 | pushing a live block on any list at or below its class keeps the invariant |
| MemoryPool.DeleteKeeps | include/memory_pool.h:127-135 | the code's choice of list is always such a list |
| MemoryPool.RunKeeps | src/manager/memory_pool.cpp:100-160 | the invariant holds over every run of new and delete |
| MemoryPool.NeverLeftOver | src/manager/memory_pool.cpp:128-160 | without a tail at the start there is none after any run of new and delete |
| MemoryPool.Conservation | src/manager/memory_pool.cpp:100-160 | after every run live, free and carved blocks and the tail share no byte, lie in the chunks and add up to exactly the chunk bytes; the tail is a multiple of 8 |
| MemoryPool.CarvedStays | src/manager/memory_pool.cpp:117-126 | nodes of a refill that were put on no list stay so over every run: they are never handed out |
| MemoryManager.MemoryManager.constructor | src/manager/memory_pool.cpp:67-71 | a new manager holds the empty pool and sixteen empty lists |
| MemoryManager.MemoryManager.AllocateNodes | src/manager/memory_pool.cpp:128-160 | the method with its recursion and list update computes allocate and keeps every list's link words a null-terminated chain |
| MemoryManager.MemoryManager.Fill | src/manager/memory_pool.cpp:100-126 | refills from allocate and chains exactly the granted nodes in address order; one granted node leaves every word alone; any num but 0 takes nothing and clears the word at the tail |
| MemoryManager.MemoryManager.Link | src/manager/memory_pool.cpp:117-124 | the linking loop chains num nodes, ends with a null behind them, disturbs no free list and writes no other word |
| MemoryManager.MemoryManager.NewObject | include/memory_pool.h:71-92 | pops the head of the class list or refills, exactly as New says |
| MemoryManager.MemoryManager.DeleteObject | include/memory_pool.h:118-135 | a null is ignored, any other block becomes the head of list 0 |
| MemoryManager.MemoryManager.Store | include/memory_pool.h:71-92 | a program that overwrites words of an object it holds does not disturb any free list |
| MemoryManager.PushLinked | include/memory_pool.h:131-133 | writing the link word and the head pushes on the list and leaves all other lists linked |
| MemoryManager.PopLinked | include/memory_pool.h:87-89 | taking the link word as the new head pops the list |
| Scheduler.Pick | src/concurrent/schedule.cpp:85-100 | the scan stops at an entry that fits the worker and is not a running coroutine, and at the first such one |
| SchedulerRuns.TokensAfter | src/concurrent/schedule.cpp:83-153 | how each step changes the number of wake tokens of each piece of work |
| SchedulerRuns.AlwaysConserved | include/schedule.h:53-83 | over every run all work handed in waits in exactly one token or is over: entered, dropped as a finished coroutine, or overwritten in its slot |
| SchedulerRuns.StartsExactly | src/concurrent/schedule.cpp:129-141 | a worker turns from holding a callback to executing it, as a new coroutine that is running, in exactly the step that enters it |
| SchedulerRuns.EnteredIsStarted | src/concurrent/schedule.cpp:129-141 | in each step the book of entered callbacks grows by the number of workers that start the callback |
| SchedulerRuns.EnteredIsExecuted | src/concurrent/schedule.cpp:72-169 | so over every run it grows by the number of executions |
| SchedulerRuns.ExactlyOnce | include/schedule.h:76-99 | every callback is in an event slot, in the queue, in a worker's hand, was executed, or was overwritten in its slot, as often as it was handed in; executions are counted from the steps of the workers |
| SchedulerRuns.LostExactly | src/io/io.cpp:101-105 | a step loses work if and only if it registers over an armed slot |
| SchedulerRuns.WorkersGoRound | src/concurrent/schedule.cpp:82-162 | how each step changes each worker: a scan that finds nothing makes it idle, any other makes it hold the first entry it may take; it then executes that entry, or idles if it is a terminated coroutine; leaving and waking make it look again; nothing touches another worker |
| SchedulerRuns.QueueExactly | src/concurrent/schedule.cpp:82-117 | how each step changes the queue: one entry appended by a dispatch, a leaving to ready or a firing, the last two without a pin; the first entry it may take removed by a scan; no other change |
| SchedulerRuns.StatesExactly | src/concurrent/schedule.cpp:106-153 | how each step changes the state of each coroutine |
| SchedulerRuns.NoCallbackDropped | src/concurrent/schedule.cpp:129-153 | no callback is ever dropped |
| SchedulerRuns.NeverTwice | src/concurrent/schedule.cpp:83-126 | if each coroutine has at most one token, no coroutine is ever executed by two workers, in any interleaving |
| SchedulerRuns.TwoTokensTwoWorkers | src/concurrent/schedule.cpp:83-126 | with two tokens two workers can execute the same coroutine |
| SchedulerRuns.TakeOrdered | src/concurrent/schedule.cpp:85-100 | taking the entry the scan stops at keeps the dispatch order of callbacks with the same pin |
| SchedulerRuns.AlwaysOrderly | src/concurrent/schedule.cpp:86-100 | over every run tasks are held and executed only where their pin allows, and callbacks with the same pin are taken in dispatch order |
| SchedulerRuns.PinsAreDispatched | include/schedule.h:76-99 | over every run an entry with a pin was put there by a dispatch call with that work and that pin |
| SchedulerRuns.PinStep | src/concurrent/schedule.cpp:83-153 | a step keeps a coroutine pinned if and only if it is not its leaving to ready, its event firing, or a dispatch of it with another pin |
| SchedulerRuns.PinnedUntilRequeued | src/concurrent/schedule.cpp:83-153 | so over every run without such a step the coroutine is executed only by the worker of its pin |
| SchedulerRuns.PinLostOnReady | src/concurrent/schedule.cpp:114-117 | a pinned coroutine that leaves to ready is queued for anyone, and every other worker that finds nothing before it takes it |
| SchedulerRuns.PinLostOnTrigger | src/concurrent/event.cpp:37-45 | so is one whose event fires |
| SchedulerRuns.OverExactly | src/concurrent/schedule.cpp:113-151 | a coroutine that leaves is terminated if and only if it finished and was queued as a coroutine |
| SchedulerRuns.NeverAgain | src/concurrent/schedule.cpp:106-126 | over every run a terminated coroutine is never executed again, whatever tokens of it are left |
| SchedulerRuns.EnteredExactly | src/concurrent/schedule.cpp:106-110 | a worker enters the coroutine it holds if and only if it is not terminated |
| SchedulerRuns.OverReentered | src/concurrent/schedule.cpp:113-151 | a coroutine that is over with a token left in a slot is executed again if and only if it failed or was made for a function |
| SchedulerRuns.AlwaysCounted | src/concurrent/schedule.cpp:106-162 | the two counters always equal the numbers of executing and idle workers |
| SchedulerRuns.BypassStep | src/concurrent/schedule.cpp:85-100 | in one step a queued callback is taken, stays, or moves closer to the front whenever a worker that may take it takes another task |
| SchedulerRuns.BoundedBypass | src/concurrent/schedule.cpp:85-100 | a callback at position k is taken within k+1 successful scans by workers that may take it, whatever is dispatched meanwhile |
| SchedulerRuns.FromTheStart | src/concurrent/schedule.cpp:72-169 | all of these for every run of a scheduler that has just been started |
| Schedule.FirstEligible | src/concurrent/schedule.cpp:85-100 | the loop's stopping place is the one the specification names |
| Schedule.Schedule.constructor | src/concurrent/schedule.cpp:59-69 | every worker looks, nothing is queued, no context is armed |
| Schedule.Schedule.DispatchTask | include/schedule.h:76-83 | queues a task unless it is empty, and reports whether the list was empty |
| Schedule.Schedule.ScanTasks | src/concurrent/schedule.cpp:82-104 | the scan loop is the Scan step; others are notified exactly when an entry pinned to one of them was passed over |
| Schedule.Schedule.EnterHeld | src/concurrent/schedule.cpp:106-141 | entering a coroutine or a function task, or letting a finished coroutine go, is the Enter step |
| Schedule.Schedule.LeaveRunning | src/concurrent/schedule.cpp:113-153 | what the worker does with the state a coroutine left in is the Leave step |
| Schedule.Schedule.WakeIdle | src/concurrent/schedule.cpp:155-167 | returning from the idle coroutine is the WakeUp step |
| Schedule.Schedule.RegisterContext | src/io/io.cpp:100-106 | writing a field of a context, armed or not and by any thread, is the Register step |
| Schedule.Schedule.GrowContexts | src/io/io.cpp:43-52 | room for more contexts is the Grow step |
| Schedule.Schedule.TriggerContext | src/concurrent/event.cpp:40-43 | one of the two dispatch calls: moves the work of one field to the end of the queue |
| Interest.SlotExists | src/io/io.cpp:71-77 | the table grows to twice the descriptor and keeps its events; then there is an event for the descriptor unless it is descriptor 0 of an empty table |
| Interest.RegisterLegal | src/io/io.cpp:81-93 | registration never asks to add a present descriptor or to modify an absent one |
| Interest.RegisterExactly | src/io/io.cpp:68-108 | registration keeps masks, contexts, kernel and counter in step if and only if the kernel accepts a new type, or refuses an old one |
| Interest.RegisterTells | src/io/io.cpp:81-99 | an accepted registration leaves the kernel with the bit 0x80000000 and otherwise exactly the event's mask, which gains 0x1 or 0x4; every other descriptor is untouched, and a refused one changes nothing in the kernel |
| Interest.RegisterArms | src/io/io.cpp:79-108 | an accepted registration sets the function, or the caller's coroutine without one, and the scheduler of the context of its type, and counts one more awaited event; everything else in the table stays, and all of it when refused |
| Interest.ReadyLegal | src/io/io.cpp:224-228 | reacting to a report never modifies or removes an absent descriptor |
| Interest.ReportedBit | include/event.h:8-12 | reading is bit 0x1 and writing bit 0x4 of a report |
| Interest.LeftAwaited | src/io/io.cpp:210-223 | a report concerns an event if they share a bit, and of the mask everything but the reported 0x5 bits is left |
| Interest.FunctionFirst | src/concurrent/event.cpp:37-45 | a context hands over its function, then its coroutine, whichever it holds |
| Interest.HandleExactly | src/io/io.cpp:210-239 | a report that concerns the event hands over the contents of exactly the reported contexts, reading first, empties them, counts them down and leaves the other context and every other event alone |
| Interest.ReadyExactly | src/io/io.cpp:214-239 | handling a report keeps all of it in step if and only if only awaited types are reported and the mask left is the one still awaited |
| Interest.ResizeKeeps | src/io/io.cpp:43-52 | growing the table keeps the invariant |
| Interest.OneChanged | src/io/io.cpp:214-239 | a change at one descriptor keeps the invariant if and only if that descriptor is in step and the counter moves with its bits |
| InterestRuns.RegistrationMisses | src/io/io.cpp:68-108 | in any table, a registration makes exactly the work missing that was in the field it writes |
| InterestRuns.RegistrationLosesExactly | src/io/io.cpp:100-106 | an accepted registration loses nothing if and only if the field it writes, function or coroutine, was empty |
| InterestRuns.AcceptMisses | src/io/io.cpp:100-106 | a good registration loses no callback and adds exactly the one registered |
| InterestRuns.ReportMisses | src/io/io.cpp:214-239 | a handled report, whatever its bits, loses and doubles no callback |
| InterestRuns.GoodStep | src/io/io.cpp:68-239 | each good step keeps the invariant and the callbacks |
| InterestRuns.AlwaysInStep | src/io/io.cpp:68-239 | over every good run kernel mask and event mask agree, each set bit has exactly one callback, the counter is the number of set bits, and no callback is lost or doubled |
| InterestRuns.StartsInStep | src/io/io.cpp:14-28 | the empty table is in step |
| InterestRuns.HandedOverExactly | src/concurrent/event.cpp:37-45 | after every run, a context can be fired if and only if it is empty or its last accepted registration came from a thread with a current scheduler; a report that fires any other gets stuck |
| InterestRuns.NeverStuck | src/concurrent/event.cpp:37-45 | with registrations only from such threads no report ever gets stuck |
| InterestRuns.UnscheduledSticks | src/io/io.cpp:101-101 | an accepted registration from any other thread gets the next report of its type stuck |
| Driving.SlotsStored | src/io/io.cpp:100-106 | the scheduler's slots hold exactly what the contexts hold, as often |
| Driving.RegisterDrives | src/io/io.cpp:68-108 | RegisterEvent by any caller, growth of the table included and whatever the kernel answers, is a legal scheduler run of a Grow step and, if accepted, the Register step; the slots follow the contexts |
| Driving.FireDrives | src/concurrent/event.cpp:37-45 | firing a context that can be fired is a legal run of Trigger steps that puts its function and then its coroutine behind the queue, for any worker |
| Driving.ReportDrives | src/io/io.cpp:214-239 | any report that does not get stuck, expected or not, is a legal scheduler run that puts exactly the work handed over behind the queue, once, in order and for any worker |
| Driving.HandedOver | src/io/io.cpp:229-236 | the hand-over list grows by exactly that work |
| Server.StepCoupled | src/io/io.cpp:68-240 | every action of the whole server keeps the scheduler's slots equal to the contexts |
| Server.AlwaysKept | src/concurrent/schedule.cpp:72-169 | over every run of registrations, reports, timers and worker steps the scheduler keeps its books, pins, order and counters, and was handed exactly what was accepted, expired or dispatched |
| Server.EnteredIsExecuted | src/concurrent/schedule.cpp:129-141 | over every run of the server the book of entered callbacks grows by the executions the workers' steps make |
| Server.EndToEnd | src/io/io.cpp:174-240 | over every such run, registrations from every thread included, each accepted, expired or dispatched callback is in a context, in the queue, in a hand, was executed or overwritten, as often as it came in |
| Server.LostExactly | src/io/io.cpp:100-106 | an action of the server loses work if and only if it is an accepted registration over a filled field |
| Server.AlwaysGood | src/io/io.cpp:68-240 | over good actions table, kernel and counter stay in step and nothing is lost |
| Server.ExactlyOnce | src/io/io.cpp:174-240 | so each callback is exactly once in a context, in the queue, in a hand, or executed |
| Server.NeverTwice | src/concurrent/schedule.cpp:83-126 | with one token per coroutine, contexts included, no coroutine is executed by two workers over any run of the server |
| Server.ProjectsIo | src/io/io.cpp:68-240 | what a run of the server does to the event table is a legal run of the table alone |
| Server.HandledExactly | src/concurrent/event.cpp:37-45 | after every run of the server a report can be handled if and only if each context it fires is empty or was last registered by a thread with a current scheduler |
| Server.NeverStuck | src/concurrent/event.cpp:37-45 | with registrations only from such threads every report can be handled |
| IoSchedule.FdEvent.TriggerEvent | src/concurrent/event.cpp:37-45 | clears the bit, empties the context, and dispatches its function and then its coroutine; gets stuck exactly when the context is filled and its scheduler pointer is null |
| IoSchedule.IoSchedule.Resize | src/io/io.cpp:43-52 | appends new events up to the size and keeps the old ones |
| IoSchedule.IoSchedule.Find | src/io/io.cpp:69-78 | returns the descriptor's event from the table, grown if need be |
| IoSchedule.IoSchedule.RegisterEvent | src/io/io.cpp:68-108 | the method computes Await, for every caller and every answer of the kernel |
| IoSchedule.IoSchedule.FireEvent | src/io/io.cpp:229-236 | one triggered type: hands over and counts down, or gets stuck |
| IoSchedule.IoSchedule.HandleEvent | src/io/io.cpp:210-239 | one turn of the loop over reports gets stuck exactly when the report does, and otherwise computes Handle, for every uninitialised mask |
| IoSchedule.IoSchedule.HandleEvents | src/io/io.cpp:203-240 | the loop handles all reports in order up to the first that gets stuck, and skips the wake-up pipe |
| IoSchedule.IoSchedule.Passes | src/io/io.cpp:174-256 | over any number of passes only the reports of the first are handled, and of those at most 1024 |
| IoSchedule.EpollWait | src/io/io.cpp:197-197 | copies as many reports as fit, or fails without a buffer |
| Timer.LowerBound | src/concurrent/timer.cpp:99-99 | the first timer that does not come before the key, for either comparator |
| Timer.Place | include/timer.h:30-41 | where the set puts a new key, for either comparator |
| Timer.InsertAlways | src/concurrent/timer.cpp:51-63 | insert never refuses, even in a container that is out of order |
| Timer.InsertKeeps | src/concurrent/timer.cpp:51-63 | insert keeps order and every timer, ties included |
| Timer.StrictInsertLosesTies | include/timer.h:30-41 | with a strict order a timer with a deadline already present would be lost |
| Timer.FindNever | src/concurrent/timer.cpp:69-73 | find never finds anything |
| Timer.StrictFinds | src/concurrent/timer.cpp:69-73 | with a strict order it finds a timer with that deadline exactly when there is one |
| Timer.DeleteExactly | src/concurrent/timer.cpp:65-78 | the code's delete changes nothing, which is what it should do exactly when the timer is not there |
| Timer.AdjustedExactly | src/concurrent/timer.cpp:129-135 | between two 64-bit clock readings a poll sees the clock set back if it went back by more than an hour, or at all within the first hour |
| Timer.CutIsDue | src/concurrent/timer.cpp:99-104 | lower bound and skip loop together cut off exactly the due timers, with either comparator |
| Timer.VerdictNeverMatters | src/concurrent/timer.cpp:92-99 | the clock check never changes what a poll takes off |
| Timer.VerdictExactly | src/concurrent/timer.cpp:92-104 | a poll takes off what its clock check asks for if and only if the clock was not set back or every timer is due anyway |
| Timer.ExpireExactly | src/concurrent/timer.cpp:90-117 | a poll fires exactly the due timers (all, if the clock was set back) in deadline order; left are exactly the others and the cyclic ones one delay from now, in order |
| Timer.PollExactly | src/concurrent/timer.cpp:81-117 | a timer is fired if and only if it is there and due; left afterwards are exactly the timers that are not due and, for each cyclic one that was, the same timer with the poll's clock plus its delay, modulo 2^64, as its deadline |
| Timer.NextTimeIsLeast | src/concurrent/timer.cpp:119-127 | the next time is the least remaining delay, and 2^64 - 1 exactly without a timer |
| Timer.RestartedExactly | src/concurrent/timer.cpp:19-37 | behind shared_from_this, refresh and reset add one entry of the timer; it is there once if and only if it was not there |
| Timer.RestartedDeadlines | src/concurrent/timer.cpp:19-37 | each entry of the timer then has the given start plus the delay, modulo 2^64, as its deadline, and no other timer changes |
| Timer.RestartedSorted | src/concurrent/timer.cpp:19-37 | they leave the container in order if and only if the new deadline lies between those of the timer's neighbours |
| Timer.RestartedAsMeant | src/concurrent/timer.cpp:19-37 | with a delete by identity they keep order, have the timer exactly once and leave every other timer alone |
| TimerRuns.PollSole | src/concurrent/timer.cpp:90-117 | a poll fires a timer exactly when it is due and keeps it exactly when it is cyclic |
| TimerRuns.RestartOccurs | src/concurrent/timer.cpp:19-37 | in the runs, a restart as meant leaves the timer there once with its new deadline and every other untouched |
| TimerRuns.StaysOnceOnly | src/concurrent/timer.cpp:51-117 | over every run, restarts as meant included, a one-shot timer stays pending, was taken out, or has fired once |
| TimerRuns.OneShots | src/concurrent/timer.cpp:51-117 | every one-shot timer added in a run is pending, taken out, or fired exactly once and not before its latest deadline |
| Timer.SharedIsPlain | src/concurrent/timer.cpp:81-117 | for a container without repetitions the poll with shared objects is the plain poll |
| Timer.RequeueTasks | src/concurrent/timer.cpp:106-115 | each expired entry of a cyclic timer returns its function; of a one-shot only the first entry does, every further one returns a null |
| Timer.RequeueRest | src/concurrent/timer.cpp:106-115 | after a poll a timer is there as often as among the entries left and the cyclic ones that expired |
| Timer.RequeueDeadlines | src/concurrent/timer.cpp:106-115 | every entry of a cyclic timer that expired has the poll's clock plus the delay as its deadline, whatever its order among further entries; every entry of a one-shot one has lost its function |
| Timer.RequeueOthers | src/concurrent/timer.cpp:106-115 | the entries of timers that did not expire are exactly those from before |
| TimerRuns.AlwaysUnique | src/concurrent/timer.cpp:51-117 | over runs of adding, deleting, restarting as meant and polling no timer is there twice |
| TimerRuns.CyclicStep | src/concurrent/timer.cpp:106-115 | each step keeps a cyclic timer there once and logs its firing exactly when it is due |
| TimerRuns.NeverEarly | src/concurrent/timer.cpp:81-117 | for any poll times, clocks set back included, the k-th firing is no earlier than k delays after the start |
| TimerRuns.RateAtMost | src/concurrent/timer.cpp:81-117 | so for any polls up to T it fires at most (T-t0)/d times, rounded down |
| TimerRuns.NeverLate | src/concurrent/timer.cpp:106-115 | for steady polls the k-th firing is no later than k delays and gaps after the start |
| TimerRuns.RateAtLeast | src/concurrent/timer.cpp:81-117 | so it fires at least (T-t0)/(d+g) times, rounded down |
| TimerRuns.CyclicRate | src/concurrent/timer.cpp:81-117 | both bounds together for steady polls |
| IdleLoop.TimeoutExactly | src/io/io.cpp:191-196 | the sleep is at most every remaining delay and at most 3000 ms, and is 3000 ms or one of the remaining delays |
| IdleLoop.Punctual | src/io/io.cpp:191-200 | a timer present when a pass starts fires within the wake-up jitter of its deadline |
| IdleLoop.AddedWhileAsleep | src/io/io.cpp:191-200 | a timer added during a sleep fires within 3000 ms and the jitter of its deadline |
| IdleLoop.QuietPasses | src/io/io.cpp:191-197 | the first timer fires within ceil((D-now)/3000) quiet passes; each one takes one off that measure |
| IdleLoop.FirstStays | src/concurrent/timer.cpp:90-117 | a first firing within bounds stays so in later passes |
| TimerManager.TimerObject.constructor | src/concurrent/timer.cpp:5-9 | a new timer's deadline is one delay after the second clock reading |
| TimerManager.TimerManager.Insert | src/concurrent/timer.cpp:51-55 | the object is put where the comparator wants it |
| TimerManager.TimerManager.AddTimer | src/concurrent/timer.cpp:57-63 | makes a timer and inserts it |
| TimerManager.TimerManager.LowerBound | src/concurrent/timer.cpp:99-99 | computes the lower bound |
| TimerManager.TimerManager.DeleteTimer | src/concurrent/timer.cpp:65-78 | computes Delete, and never reaches the erase |
| TimerManager.TimerManager.DetectClockAdjust | src/concurrent/timer.cpp:129-135 | reports a clock set back by more than an hour and remembers the clock |
| TimerManager.TimerManager.GetNextTime | src/concurrent/timer.cpp:119-127 | computes NextTime |
| TimerManager.TimerManager.GetExpiredList | src/concurrent/timer.cpp:81-117 | computes the poll for any container, also one that holds a timer more than once |
| TimerManager.TimerManager.CutPoint | src/concurrent/timer.cpp:99-102 | lower bound or end, and the skip loop |
| TimerManager.TimerManager.Requeue | src/concurrent/timer.cpp:107-114 | a cyclic timer gets its new deadline and goes back, another one loses its function; all its other entries change with it |
| TimerManager.TimerManager.Collect | src/concurrent/timer.cpp:106-115 | the loop over the expired timers collects all functions and puts exactly the cyclic ones back |
| TimerManager.TimerManager.Reset | src/concurrent/timer.cpp:28-37 | throws before anything changes when shared_from_this does, and otherwise computes Restarted, with the old function when none is given |
| TimerManager.TimerManager.Refresh | src/concurrent/timer.cpp:19-26 | nothing without a manager; throws like Reset; otherwise computes Restarted with the delay unchanged |
| TimerManager.IdleTimeout | src/io/io.cpp:191-196 | the sleep is the next time but at most 3000 ms, and 3000 ms without a timer |
| Expiry.BatchQueues | include/schedule.h:100-107 | a batch dispatch is a legal run that keeps the queue and puts each callback behind it, once, in order and for any worker, and nothing for a cleared function |
| Expiry.ExpiryDrives | src/io/io.cpp:198-202 | a poll and the dispatch behind it queue exactly the callbacks of the due timers, once each, in deadline order and for any worker: each worker that finds nothing before them takes the first |
| Expiry.BatchDispatch | include/schedule.h:100-107 | the loop performs exactly those steps |
| LogPattern.Explain | src/manager/logger.cpp:466-599 | the nested loops compute the items of the pattern, or run past its end; ExplainExactly says what these are |
| LogPattern.LettersExactly | src/manager/logger.cpp:474-486 | commands are the ASCII letters, and a per cent sign is the header |
| LogPattern.FormatterExactly | src/manager/logger.cpp:542-597 | each of the thirteen formatters is the item of exactly one letter, every other command is an error item, and so is every misplaced character |
| LogPattern.ExplainExactly | src/manager/logger.cpp:466-599 | for every pattern: the letters of its leading segments, then by what is behind them nothing, the last letters, error items for stray or unclosed text, or a read past the end; with nothing behind them the last segment is lost |
| LogPattern.ScanRun | src/manager/logger.cpp:479-511 | the inner loop computes Inner |
| LogPattern.Inner | src/manager/logger.cpp:484-511 | the inner cursor stays in the pattern and strictly advances |
| LogPattern.SegmentStep | src/manager/logger.cpp:473-540 | one turn at a segment, with brackets that mean nothing where they stand among its letters, takes its letters in order and moves right behind it, unless the pattern ends there |
| LogPattern.PatternEntries | src/manager/logger.cpp:473-540 | any segments and a final run of letters give their letters, one entry each and in order |
| LogPattern.PatternItems | src/manager/logger.cpp:466-599 | so the item list is one item for each letter, in order |
| LogPattern.LastSegmentLost | src/manager/logger.cpp:513-515 | a pattern that ends with a separator or closing bracket loses its last segment |
| LogPattern.StrayText | src/manager/logger.cpp:528-534 | text in front of a header gives one error item per character, behind the items of the segments before it, and drops what follows |
| LogPattern.UnclosedBracket | src/manager/logger.cpp:517-527 | an unclosed bracket turns its letters into one error item each, behind the items of the segments before it, and drops what is inside |
| LogPattern.TailWithoutHeader | src/manager/logger.cpp:474-478 | text without a header behind any segments is read past its end |
| LogPattern.ParseFits | src/manager/logger.cpp:484-511 | every pattern is as many segments as it begins with, and a tail that begins with none |
| LogPattern.PastEndExactly | src/manager/logger.cpp:473-540 | for every pattern, explain reads past the end if and only if that tail is not empty and has no header |
| Ipv4.MaskIsPrefix | src/net/address.cpp:66-74 | the mask has exactly its first prefix bits set |
| Ipv4.BroadcastSum | src/net/address.cpp:76-86 | the broadcast address is the network address plus 2^(32-p) - 1 |
| Ipv4.BroadcastIsGreatest | src/net/address.cpp:76-86 | it has the address's prefix and is the greatest address that has |
| Ipv4.BroadcastOfPrefix | src/net/address.cpp:76-86 | it is the same for two addresses exactly when they share the prefix, and they do exactly when one is among the 2^(32-p) addresses from the other's network address on |
| Ipv4.Print | src/net/address.cpp:52-64 | the loop prints the dotted form in brackets and the port |
| Ipv4.DottedRoundTrip | src/net/address.cpp:52-64 | the printed line determines address and port |
| Ipv6.FirstZero | src/net/address.cpp:145-147 | the first zero group |
| Ipv6.RunEnd | src/net/address.cpp:145-151 | the end of the first run of zero groups |
| Ipv6.Print | src/net/address.cpp:141-157 | the loop with its flag prints the groups with the first run of zeros replaced, for any number of groups |
| Ipv6.StageStep | src/net/address.cpp:145-155 | what each turn of the loop adds |
| Ipv6.RoundTrip | src/net/address.cpp:141-157 | a decoder that expands `::`, or pads on the right, recovers all groups, and the line also determines the port |
| Ipv6.Injective | src/net/address.cpp:141-157 | two addresses of the same length print alike exactly when they are equal |
| Ipv6.ValidIff | src/net/address.cpp:141-157 | the text is a valid form of section 2.2 of RFC 4291 if and only if the first run of zeros does not reach the last group |
| Digits.ReadShow | src/net/address.cpp:58-63 | reading back printed digits gives the number |
| Digits.ShowLength | src/net/address.cpp:154-154 | a 16-bit group has at most four hexadecimal digits |
| Digits.LineRead | src/net/address.cpp:62-63 | a reader that insists on brackets, colon and line end reads text and port back from the printed line |

## Left out

- Objects over 128 bytes and `memory_block` (memory_pool.cpp:6-57): a stack of malloc'd blocks. (`delete_object` compares the size of the pointer with 128, so it never gives such an object back to that stack.)
- malloc returning null, the destructor of the manager, and the constructor calls inside `new_object`.
- MemoryManager.MemoryManager.DeleteObject: deleting a block that is not live (a double delete) is outside the model.
- Real contexts, threads, pipes, locks and epoll: steps of the state machines and parameters (`up`, `events`, `left`, `base`, `wake`) stand for them. Placement of a chunk, the kernel's answers and clock readings are arbitrary within stated bounds.
- Scheduler stop and shutdown, `can_stop`, the thread that starts the scheduler working in it (`Use_InitThread` true, `call`, `back`), and `MainThread_function`.
- Schedule.Schedule.LeaveRunning: the coroutine's own state change and the worker's reaction are one step, so the moment between `m_state = ready` or `pause` and the switch back is not modelled.
- Schedule.Schedule.EnterHeld: reading the state and setting it to running is one step.
- SchedulerRuns.NeverTwice: the discipline (one wake token for a coroutine) is a condition on the callers; the code does not enforce it.
- Hook state, logging and notifications through the pipe, apart from when they are requested.
- `CancelEvent` and `DeleteEvent`: as written they leave the mask of the event unchanged.
- The descriptor of the wake-up pipe in the kernel's table, the `fstat` call, and the union of descriptor and pointer in a report.
- Server.EndToEnd: a run ends where a report gets stuck; what an undefined call does is not modelled. A context's scheduler is this one or none: two schedulers in one process are not modelled.
- Which coroutine is current on a thread: making a coroutine changes it (coroutine.cpp:32), so a registration without a function may register another one than is running; in the model it may be any.
- LogPattern.ScanRun: the bracket position is declared inside the loop and read in a later turn, which C++ leaves undefined; the model keeps its value.
- IoSchedule.IoSchedule.RegisterEvent: negative descriptors, and descriptor 0 while the table is empty, index outside the table and are excluded.
- IoSchedule.IoSchedule.HandleEvent: the mask passed back is a parameter because the code never sets it; that the code uses a whole uninitialised struct is not modelled further.
- The order of one idle pass as a whole (expired timers are dispatched before events are handled) is not one method; its two halves are, and the runs of `Server` allow them in any order.
- The shape of the tree behind `std::set`: the container is its in-order sequence. Insert, find and lower_bound do what the library's tree does for this comparator on an ordered container.
- TimerManager.TimerManager.Reset: where insert lands in a container that is out of order depends on the tree; the method searches from the front, and `Restarted` leaves the place open.
- TimerManager.TimerManager.GetExpiredList: on a container that is out of order the lower bound is searched from the front; the emptiness check under the read lock and the rest under the write lock are one step.
- TimerRuns.NeverEarly: deadlines that wrap around 64 bits are excluded by the condition on `now + d`.
- TimerRuns.OneShots: runs are without duplicates of one identity, so the same object is not added twice, and a restart is that of a pending timer and takes its old entry out.
- IdleLoop.Punctual: the clock does not go back, and timers added during a pass are not yet overdue when it starts.
- Null timers in the comparator: none is ever inserted.
- Log items' own output, appenders, ANSI output, levels and the logger manager.
- LogPattern.Explain: characters are ASCII; `isalpha` in other locales is not modelled.
- Ipv4.BroadcastSum: prefix lengths of 32 and more shift by the width of the type, which C++ leaves undefined, and are excluded.
- Byte order: addresses and groups are numbers as they are printed. `create`, `lookup` and address conversion call the system.
- Sockets, hooks, handles, files, daemon start-up, calendar time, and the thread and semaphore wrappers: they pass calls on to the operating system and keep little state of their own.
