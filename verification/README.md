# Proofs about the FreeRTOS kernel objects and the Arduino text algorithms

This project models the parts of the repository whose correctness is hardest to see, and proves what
they are for. `dafny verify dfyconfig.toml` checks everything.

* **Software timers** (`Ticks`, `TimerPlacement`, `TimerHistory`, `Timers`). The daemon keeps wrapped 32-bit
  times in two lists. The model runs it against an unbounded clock and proves that the wrapped comparisons
  agree with true time, that the lists always belong to the right epochs, and that a timer that was started
  and left alone since gets its k-th callback for the k-th due time, with no skip, repeat or drift, along
  all three paths (expired head, restart message, list switch). Which timers these are is read off a record
  of the commands sent, handled and lost (`TimerHistory.LeftAlone`): the last user command for the timer has
  been handled and made it active, no restart of the daemon's own was queued behind that command, and none
  was lost since. A timer that was stopped and left alone (`TimerHistory.Halted`) rests: it is on no list, and
  its callback does not run. The condition on restarts is exactly what both properties need
  (`Timers.Daemon.StartHoldsIff`, `Timers.Daemon.StopHoldsIff`).
* **Queues** (`RingModel`, `Queues`). The byte ring refines a bounded deque, over every run the items come
  out as a replay of the operations says, and the lock counts lose no wakeup in any interleaving of tasks,
  interrupts and resets, up to the exact conditions stated.
* **Event groups** (`EventGroups`). Nobody waits for a condition that holds, in every reachable state;
  setting bits while walking the list releases exactly the right tasks; the rendezvous works.
* **The kernel list** (`Lists`, `ListModel`). A heap proof of the circular doubly linked list with its
  sentinel and its walking index.
* **Co-routines** (`RoundRobin`, `CoRoutines`). Over every run each delay ends exactly at its true tick across
  the wrap, or earlier by its event; the highest ready priority is picked, and within it nobody is passed over
  by more than two rounds of the others.
* **Streams** (`StreamSearch`, `StreamNumbers`), **digits** (`Printing`) and **IP addresses** (`AddressText`,
  `DottedText`, `CanonicalText`, `IPAddresses`). The search without a failure table finds the earliest
  match; the chunked printer writes what the reference writes, and numbers are read back as printed; the
  address parsers accept an exactly stated grammar and undo the printers for every address, and the
  printed form is that of RFC 5952.

Objects that the source updates in place are classes with the source's fields; loops are loops with
invariants; each method is proved against functions on values, and lemmas say what those functions mean.
Some fields are history (true times, logs of callbacks, commands, items and delays); the modelled code
never decides anything by them, only specifications and the assumption on time read them. `Sequences` holds
the few facts about sequences that the modules share.

Interference is part of the model. Between the steps that the timer daemon takes with the scheduler
suspended, or that touch the command queue or a list, other tasks, interrupts and callbacks run
(`Timers.Daemon.Environment`): before each sample of the time, between a sample and its use, after a message
is taken off the queue, in every callback and between rounds. Inside the functions that file one timer or
send one restart nothing interleaves, since what others do there is no different from doing it before or
after. A queue with the scheduler suspended calls `Interrupts`; `Run` methods pick the next step freely. Calls
into `tasks.c` are abstract moves of task ids between waiting and woken.

## Assumptions

* Timers: the daemon is never a whole wrap late. With a list in use, fewer than 2^32 ticks pass between
  samples; a start waits less than 2^32 ticks for room in the queue and is handled less than 2^32 ticks after
  it was asked for; a command is carried out less than 2^32 ticks after the sample taken for it; a callback
  ends less than 2^32 ticks after its due time (`Timers.Daemon.ClockAllowed`). Only the daemon touches the
  lists. Periods are not zero, as the asserts of the source demand.
* Co-routines: the scheduler is called at least once per wrap.
* A restart message that finds the command queue full (32 entries, `t2Vendor/os/include/FreeRTOSConfig.h:87`) is
  lost, because `configASSERT` is empty (`t2Vendor/os/FreeRTOSv9.0.0/FreeRTOS/Source/include/FreeRTOS.h:278`). The model loses it too and
  makes no promise about that timer until its next start.

## Where the code differs from its documentation

* `list.c:126-128` says that an item inserted at the end is the last one the walk returns. That holds while
  the index is on the sentinel; otherwise the item comes just before the one returned last
  (`Lists.List.InsertEnd`).
* `include/timers.h:509-512` promises that a started timer which is not stopped, deleted or reset runs out one
  period after the call, and `include/timers.h:561` that a stopped timer is not active. Both fail where a restart
  of the daemon's own is queued behind the command (`Timers.Daemon.StartHoldsIff`, `Timers.Daemon.StopHoldsIff`):
  being handled after it (`timers.c:792-843`), the restart makes the timer due one period after its own time,
  whatever the command asked for (`Timers.Daemon.CommandUndone`). Restarts are sent in three places, so this
  happens when an auto-reload timer is served more than a period late (`timers.c:511-522`,
  `Timers.Daemon.LateCommand`), when one is still on the current list as the tick word wraps, however short a
  time it is overdue (`timers.c:934-946`), and when a start is handled after its expiry (`timers.c:818-828`). In
  the last two the callback runs before the restart is sent, and a command sent from it is undone too
  (`Timers.Daemon.CommandInCallback`). A one-shot timer obeys every command (`Timers.Daemon.OneShotObeys`), and any
  timer obeys a command that finds it on no list, with nothing queued and not in the daemon's hands, so not from
  within its own callback (`Timers.Daemon.IdleObeys`, `Timers.Daemon.StartIdleTimer`).
* `croutine.c:339-340` says that co-routines of one priority get an equal share. That is so while none of them
  leaves the list. One that stays ready has half as many turns as each of the others when those leave and come
  back after each turn (`RoundRobin.UnequalShare`). It is never passed over more often than that
  (`CoRoutines.Scheduler.NobodyStarves`).
* The parser of IPv6 texts rejects a double colon for one single field at either end, which section 2.2 of RFC
  4291 allows, accepts a single colon in front and groups of more than four digits (`000001`), which it does
  not, and knows no dotted decimal tail (`AddressText.Parse6Exact`, `AddressText.DoubleColonExact`,
  `AddressText.LeadingColonAccepted`).
* A rejected text can leave an IPv4 object with fields in its first twelve bytes; such an object does not
  survive the round trip (`IPAddresses.ReadPrinted4`, `IPAddresses.RejectedTextLeavesFields`).
* A co-routine delay of no ticks, filed at the last tick before the wrap, is put on the list that is swapped
  out, where `croutine.c:277-278` says nothing may be, and ends two whole wraps late
  (`CoRoutines.EndIsAsAsked`, `CoRoutines.Scheduler.SwappedOutEmpty`). The delay macros and the blocking calls
  file no such delay.
* Printing through a C string stops at a zero byte, which the digit 201 is: bases above 201 can be cut short
  in `printNumber` and in the reference for 64-bit numbers, but not in the fast form
  (`Printing.FastMatchesReference`).

Two limits that the documentation does not speak of: a reset of a queue wakes one of the tasks that wait for room,
though the whole queue is free (`Queues.Queue.GenericReset`); and with an empty current list at tick word zero
the timer daemon asks for a block time of zero instead of a whole wrap (`Timers.Daemon.MayBlock`), of which
`tasks.c` decides what comes.

## Model

| member | source | states |
|---|---|---|
| `TimerPlacement.PlacementIsTrueTime` | t2Vendor/os/FreeRTOSv9.0.0/FreeRTOS/Source/timers.c:712-750 | For a command less than one wrap old, the comparisons of wrapped words say "process now" exactly when the true expiry has passed, "current list" exactly when it lies in the epoch of now, and "overflow list" exactly when it lies in the next |
| `TimerPlacement.StaleCommands` | t2Vendor/os/FreeRTOSv9.0.0/FreeRTOS/Source/timers.c:712-750 | How old a command may be: for a command of any age, a passed expiry is recognised exactly if the age is below one wrap or its remainder still covers the period |
| `TimerPlacement.StaleCommandIsMisfiled` | t2Vendor/os/FreeRTOSv9.0.0/FreeRTOS/Source/timers.c:712-750 | An instance: a command 2^32 ticks old is filed on the current list although its expiry is long past |
| `Timers.ScheduleServed` | t2Vendor/os/FreeRTOSv9.0.0/FreeRTOS/Source/timers.c:498-536 | Serving a timer at its due time keeps its schedule: the callback belongs to the next nominal time, and the timer waits for the one after it on a list, in a restart message, or (one-shot) nowhere |
| `Timers.ScheduleRestarted` | t2Vendor/os/FreeRTOSv9.0.0/FreeRTOS/Source/timers.c:814-843 | Handling the daemon's own restart message keeps the schedule: the next due time is one period after the time the message carries |
| `Timers.ScheduleBegins` | t2Vendor/os/FreeRTOSv9.0.0/FreeRTOS/Source/timers.c:810-843 | The instant at which a schedule begins: with nothing queued for its timer, the first callback of a start at true time C is due at C plus the period |
| `Timers.Daemon.OnItsSchedule` | t2Vendor/os/FreeRTOSv9.0.0/FreeRTOS/Source/timers.c:498-898 | In every reachable state, a timer whose last user command was a start or a change of period at C, with no restart of the daemon's own queued behind that command and none lost since, has had its k-th callback for C plus k periods and not before, for every k so far, and waits in exactly one place for the next |
| `Timers.Daemon.StartHoldsIff` | t2Vendor/os/FreeRTOSv9.0.0/FreeRTOS/Source/timers.c:792-843 | The exact condition: right after a start or change of period was handled, with no later user command and no lost restart, the schedule from it holds if and only if no restart of the daemon's own was queued behind it; such a restart is then still in the queue |
| `Timers.Daemon.StopHolds` | t2Vendor/os/FreeRTOSv9.0.0/FreeRTOS/Source/timers.c:792-849 | In every reachable state, a timer whose last user command was a stop or a deletion, with no restart of the daemon's own queued behind it, is on no list, has nothing queued, and its callback has not run since the command was handled |
| `Timers.Daemon.StopHoldsIff` | t2Vendor/os/FreeRTOSv9.0.0/FreeRTOS/Source/timers.c:792-849 | The exact condition: right after a stop or deletion was handled, with no later user command, the timer is on no list and nothing is queued for it if and only if no restart of the daemon's own was queued behind the command; otherwise that restart is still in the queue |
| `TimerHistory.HaltedOn` | t2Vendor/os/FreeRTOSv9.0.0/FreeRTOS/Source/timers.c:417-457 | A timer at rest stays so over every run until a user command for it is sent |
| `TimerHistory.HandleRest` | t2Vendor/os/FreeRTOSv9.0.0/FreeRTOS/Source/timers.c:845-898 | Handling a stop or deletion puts its timer to rest exactly if nothing is queued behind it, and every other timer stays as it was |
| `Timers.Daemon.CommandUndone` | t2Vendor/os/FreeRTOSv9.0.0/FreeRTOS/Source/timers.c:792-843 | What follows where the condition fails: over every run, with whatever else is queued or sent, as soon as the queued restart has been handled the timer is due one period after the restart's time (or its callback has just run for that time) |
| `Timers.Daemon.UntilHandled` | t2Vendor/os/FreeRTOSv9.0.0/FreeRTOS/Source/timers.c:538-571 | Any stretch of the daemon's loop, in any company, up to the moment at which a given queued message has been handled; a start or restart has had its effect at that moment |
| `TimerHistory.Overtaken` | t2Vendor/os/FreeRTOSv9.0.0/FreeRTOS/Source/timers.c:417-457 | A command with a restart behind it in the queue is not obeyed: once it is handled, its timer counts neither as started and left alone nor as at rest |
| `Timers.Daemon.OneShotObeys` | t2Vendor/os/FreeRTOSv9.0.0/FreeRTOS/Source/timers.c:511-522 | A one-shot timer obeys every command: after the last one is handled it is on the schedule from it, or at rest |
| `Timers.Daemon.IdleObeys` | t2Vendor/os/FreeRTOSv9.0.0/FreeRTOS/Source/timers.c:417-457 | The form a caller can check: a command sent at whatever moment to a timer that is on no list, has nothing queued and is not in the daemon's hands (so not from its own callback) is obeyed in every later state in which it is handled and no user command for the timer was sent after it; for a start, unless a restart was lost |
| `Timers.Daemon.StartIdleTimer` | t2Vendor/os/FreeRTOSv9.0.0/FreeRTOS/Source/timers.c:417-457 | The same for a start over every run of the daemon: between two steps of the daemon it is sent to a timer that is on no list and has nothing queued, and its schedule counts from the tick of the call |
| `Timers.Daemon.LateCommand` | t2Vendor/os/FreeRTOSv9.0.0/FreeRTOS/Source/timers.c:511-522 | One failing family: the daemon serves an auto-reload timer more than one period late while commands are queued, for this timer or others; as soon as the restart behind them is handled, the timer is due one period after the old expiry, whatever the commands were |
| `Timers.Daemon.Starved` | t2Vendor/os/FreeRTOSv9.0.0/FreeRTOS/Source/timers.c:511-522 | An instance of that: a valid state in which a timer of period 1, started at tick 4, is served at tick 10 with its reset of tick 7 queued |
| `Timers.Daemon.CommandInCallback` | t2Vendor/os/FreeRTOSv9.0.0/FreeRTOS/Source/timers.c:922-946 | Another failing family: a command sent from the timer's own callback, where the restart is sent after the callback (when the lists are switched, or a start is served late), is queued in front of that restart |
| `TimerHistory.IdleObeyed` | t2Vendor/os/FreeRTOSv9.0.0/FreeRTOS/Source/timers.c:417-457 | A command that found its timer on no list, not in the daemon's hands and with nothing queued is obeyed once it is handled: no restart can come in behind it |
| `TimerHistory.UserAccepted` | t2Vendor/os/FreeRTOSv9.0.0/FreeRTOS/Source/timers.c:417-457 | Sending a user command ends the undisturbed stretch of its own timer and of no other |
| `TimerHistory.OwnLost` | t2Vendor/os/FreeRTOSv9.0.0/FreeRTOS/Source/timers.c:515-522 | A lost restart ends the undisturbed stretch of its own timer and of no other |
| `TimerHistory.Handle` | t2Vendor/os/FreeRTOSv9.0.0/FreeRTOS/Source/timers.c:810-863 | Handling a command begins an undisturbed stretch exactly if the command makes the timer active and nothing is queued behind it, from the time the command carries (a change of period: from the sampled time); all other timers stay as they were |
| `TimerHistory.PendingAppend` | t2Vendor/os/FreeRTOSv9.0.0/FreeRTOS/Source/timers.c:417-457 | A message sent to the command queue is pending for its own timer, behind what was pending, and for no other |
| `Timers.ReloadInEpoch` | t2Vendor/os/FreeRTOSv9.0.0/FreeRTOS/Source/timers.c:926-939 | A reload that does not wrap serves the current due time and leaves exactly the rest of the due times of the epoch |
| `Timers.LastReloadInEpoch` | t2Vendor/os/FreeRTOSv9.0.0/FreeRTOS/Source/timers.c:934-946 | A reload that wraps was the last due time of the epoch, and the restart message carries that time |
| `Timers.WorkInserted` | t2Vendor/os/FreeRTOSv9.0.0/FreeRTOS/Source/timers.c:913-952 | The termination measure of the switching loop: a refiled timer adds less work than its removal took away |
| `Timers.Daemon.InsertTimerInActiveList` | t2Vendor/os/FreeRTOSv9.0.0/FreeRTOS/Source/timers.c:712-750 | Files the timer for command time plus period on the list of the right epoch, behind its equals, or reports exactly that this time has passed and changes nothing |
| `Timers.Daemon.SampleTimeNow` | t2Vendor/os/FreeRTOSv9.0.0/FreeRTOS/Source/timers.c:689-709 | The lists are switched exactly when the tick word has gone back since the last sample, which under the assumption on time is exactly one wrap when a list is in use; the invariant holds for the new epoch |
| `Timers.Daemon.SwitchTimerLists` | t2Vendor/os/FreeRTOSv9.0.0/FreeRTOS/Source/timers.c:901-957 | Terminates; every timer of the old list gets exactly the callbacks due before the wrap (one for a one-shot, floor((2^32-1-E)/P)+1 for auto-reload, in order), an auto-reload timer gets exactly one restart message with its last due time, the old overflow list becomes current and the new one is empty |
| `Timers.Daemon.ServeHead` | t2Vendor/os/FreeRTOSv9.0.0/FreeRTOS/Source/timers.c:913-952 | One round of the switching loop: the head's callback runs for its due time, and the head either stays with a larger word or leaves the list |
| `Timers.Daemon.ProcessExpiredTimer` | t2Vendor/os/FreeRTOSv9.0.0/FreeRTOS/Source/timers.c:498-535 | However long after the sample it runs, the head's callback runs once, for its own due time and not before it; an auto-reload timer is refiled for one period later, or a restart message with the due time is sent when the sampled time is past that moment too |
| `Timers.Daemon.GetNextExpireTime` | t2Vendor/os/FreeRTOSv9.0.0/FreeRTOS/Source/timers.c:634-657 | The word stands for the earliest expiry of all active timers if one lies in the epoch of the last sample, and otherwise for the next wrap of the tick count; the list is reported empty exactly if no active timer expires in that epoch |
| `Timers.Daemon.NothingMissed` | t2Vendor/os/FreeRTOSv9.0.0/FreeRTOS/Source/timers.c:574-631 | When nothing on a list is due and nothing is queued for a timer that was started and left alone since (read off the record of commands), it has had exactly the callbacks that are due: (now - start) / period of them for auto-reload, at most one for a one-shot |
| `Timers.Daemon.NothingDue` | t2Vendor/os/FreeRTOSv9.0.0/FreeRTOS/Source/timers.c:597-610 | The wrapped difference that is passed as block time ends exactly at the true expiry of the head, and no listed timer is due before |
| `Timers.Daemon.ProcessTimerOrBlockTask` | t2Vendor/os/FreeRTOSv9.0.0/FreeRTOS/Source/timers.c:574-631 | The sampled time decides what is done: the lists are switched exactly if the tick word has gone back, and then every timer of the old list has had its callbacks; otherwise the head is served, once and for its own due time, exactly if it is due; otherwise the daemon goes to sleep, never beyond the first expiry or the next wrap, without limit exactly when no timer is active, with no callback overdue, and for no time at all exactly when the current list is empty and the tick word is zero |
| `Timers.Daemon.TimerRound` | t2Vendor/os/FreeRTOSv9.0.0/FreeRTOS/Source/timers.c:538-565 | Progress: a round serves exactly the earliest of all active timers if that is due and no wrap intervenes; in any case, when the earliest timer is overdue at the start of a round, its callback for that due time runs in the round |
| `Timers.Daemon.ProcessReceivedCommands` | t2Vendor/os/FreeRTOSv9.0.0/FreeRTOS/Source/timers.c:753-898 | Commands are handled one after the other until the queue is empty or as many have been followed as are looked at |
| `Timers.Daemon.HandleStart` | t2Vendor/os/FreeRTOSv9.0.0/FreeRTOS/Source/timers.c:810-843 | A start or restart sent at C leads to a timer filed for exactly C plus the period, or, when that is past, to its callback for exactly that time and a restart that carries it |
| `Timers.Daemon.HandleChangePeriod` | t2Vendor/os/FreeRTOSv9.0.0/FreeRTOS/Source/timers.c:851-863 | The new period counts from the moment of handling |
| `Timers.Daemon.ProcessCommand` | t2Vendor/os/FreeRTOSv9.0.0/FreeRTOS/Source/timers.c:753-898 | Exactly the first queued message is taken and handled; a start leads to its timer waiting for exactly the command's time plus the period or served for that time with a restart sent, late or not, while other tasks and interrupts interfere; a change of period counts from the sample; a stopped or deleted timer is on no list, and rests from then on exactly if nothing is queued for it |
| `Timers.Daemon.SendRestart` | t2Vendor/os/FreeRTOSv9.0.0/FreeRTOS/Source/timers.c:515-522 | The daemon's own message goes to the end of the queue; when the queue is full it is lost, which is recorded |
| `Timers.Daemon.UserCommand` | t2Vendor/os/FreeRTOSv9.0.0/FreeRTOS/Source/timers.c:417-457 | Any command that a task or interrupt sends while the daemon works keeps the invariants; a start carries the tick of the call, which may be long before the queue had room |
| `Timers.Daemon.TimerTask` | t2Vendor/os/FreeRTOSv9.0.0/FreeRTOS/Source/timers.c:538-571 | Every stretch of the daemon's loop, with any interference, keeps the invariants (lists sorted, each timer on at most one, epochs right, every timer that was started and left alone on its schedule) and only extends the record of commands, handlings and losses; a timer overdue at the start is served, and every command queued at the start is handled within as many rounds as it has places ahead of it |
| `RingModel.BackSend` | t2Vendor/os/FreeRTOSv9.0.0/FreeRTOS/Source/queue.c:1726-1737 | Writing the slot behind the stretch of items appends the item and disturbs no other |
| `RingModel.FrontSend` | t2Vendor/os/FreeRTOSv9.0.0/FreeRTOS/Source/queue.c:1739-1751 | Writing the slot before the stretch prepends the item and disturbs no other |
| `RingModel.TakeFirst` | t2Vendor/os/FreeRTOSv9.0.0/FreeRTOS/Source/queue.c:1779-1794 | The stretch without its first item starts one slot further on, around the ring |
| `RingModel.NextPointer` | t2Vendor/os/FreeRTOSv9.0.0/FreeRTOS/Source/queue.c:1728-1737 | The byte pointer wraps exactly when the slot number does |
| `Queues.Queue.CopyDataToQueue` | t2Vendor/os/FreeRTOSv9.0.0/FreeRTOS/Source/queue.c:1700-1776 | The byte ring refines a bounded deque: back send appends, front send prepends, overwrite replaces; the ring stays valid exactly unless a full queue of empty items is overwritten |
| `Queues.Queue.CopyDataFromQueue` | t2Vendor/os/FreeRTOSv9.0.0/FreeRTOS/Source/queue.c:1779-1794 | The item that comes out is the front of the deque and the read pointer stays in the ring |
| `Queues.Queue.SendFromISR` | t2Vendor/os/FreeRTOSv9.0.0/FreeRTOS/Source/queue.c:922-1070 | An interrupt's send, whatever the lock count: succeeds exactly when there is room or it overwrites; wakes the first receiver when unlocked, counts in 8 bits when locked; no wakeup is lost unless a count overflows, which is recorded |
| `Queues.Queue.ReceiveFromISR` | t2Vendor/os/FreeRTOSv9.0.0/FreeRTOS/Source/queue.c:1437-1525 | An interrupt's receive, whatever the lock count: takes the front; wakes the first sender when unlocked, counts in 8 bits when locked; no wakeup is lost unless a count overflows, which is recorded |
| `Queues.Queue.PeekFromISR` | t2Vendor/os/FreeRTOSv9.0.0/FreeRTOS/Source/queue.c:1528-1579 | A peek gives the front and changes nothing, the read pointer included |
| `Queues.LockedInterrupt` | t2Vendor/os/FreeRTOSv9.0.0/FreeRTOS/Source/queue.c:957-1057 | The exact condition under which counting instead of waking is enough: the 8-bit lock count does not overflow, or the tasks woken before cover the new item as well |
| `Queues.EightBits` | t2Vendor/os/FreeRTOSv9.0.0/FreeRTOS/Source/queue.c:150-151 | The lock counts are 8-bit and go from 127 to -128 |
| `Queues.Queue.LockQueue` | t2Vendor/os/FreeRTOSv9.0.0/FreeRTOS/Source/queue.c:263-275 | Locking starts each count at zero unless it is running |
| `Queues.Queue.UnlockQueue` | t2Vendor/os/FreeRTOSv9.0.0/FreeRTOS/Source/queue.c:1797-1914 | Two critical sections with interrupts between them turn every counted item into a wakeup; both locks end open, and while no count has overflowed no wakeup is lost |
| `Queues.Queue.AttemptSend` | t2Vendor/os/FreeRTOSv9.0.0/FreeRTOS/Source/queue.c:741-866 | The critical section of a send: succeeds exactly when there is room or it overwrites, puts the item at its end, wakes the first receiver, and otherwise leaves or goes on to block |
| `Queues.Queue.AttemptReceive` | t2Vendor/os/FreeRTOSv9.0.0/FreeRTOS/Source/queue.c:1256-1366 | The critical section of a receive or peek: succeeds exactly when there is an item, a receive takes it and wakes a sender, a peek leaves it and wakes the next receiver |
| `Queues.Queue.SleepSend` | t2Vendor/os/FreeRTOSv9.0.0/FreeRTOS/Source/queue.c:872-916 | A sender whose time is over gives up; otherwise it goes to sleep exactly if the check finds the queue full, and then it is on the waiting list or has been woken already; between the check and the list no wakeup is lost, whatever interrupts do |
| `Queues.Queue.SleepReceive` | t2Vendor/os/FreeRTOSv9.0.0/FreeRTOS/Source/queue.c:1371-1431 | A receiver whose time is over looks once more; otherwise it goes to sleep exactly if the check finds the queue empty, and then it is on the waiting list or has been woken already; between the check and the list no wakeup is lost, whatever interrupts do |
| `Queues.Queue.UnlockSends` | t2Vendor/os/FreeRTOSv9.0.0/FreeRTOS/Source/queue.c:1804-1883 | As many receivers are woken as items were counted, the first in the list first, or all if fewer wait |
| `Queues.Queue.UnlockReceives` | t2Vendor/os/FreeRTOSv9.0.0/FreeRTOS/Source/queue.c:1886-1913 | As many senders are woken as items were counted, the first in the list first, or all if fewer wait |
| `Queues.Queue.Run` | t2Vendor/os/FreeRTOSv9.0.0/FreeRTOS/Source/queue.c:278-1435 | Every interleaving of tasks that send, receive, peek, block and time out with interrupts and resets keeps the invariant: while a receiver waits, the items are covered by woken receivers and the lock count, unless a lock count has overflowed; while a sender waits, so is the room, unless one has overflowed or a reset overlooked a sender; the history explains the contents |
| `Queues.Queue.NobodySleepsOverAnItem` | t2Vendor/os/FreeRTOSv9.0.0/FreeRTOS/Source/queue.c:1797-1914 | With the queue unlocked and the woken tasks through, nobody waits for an item that is there or for room that is there, unless the record holds an overflow or a reset that overlooked somebody |
| `Queues.OverlookedNever` | t2Vendor/os/FreeRTOSv9.0.0/FreeRTOS/Source/queue.c:263-328 | Runs in which no lock count overflows never overlook a receiver, with or without resets, and without resets never a sender |
| `Queues.ReceivedInOrder` | t2Vendor/os/FreeRTOSv9.0.0/FreeRTOS/Source/queue.c:1700-1794 | For every legal history whose items enter at the back only: the items received, followed by those inside, are the items accepted, in order, and at most the queue's length are inside |
| `Queues.ReplayNext` | t2Vendor/os/FreeRTOSv9.0.0/FreeRTOS/Source/queue.c:1700-1794 | One event more acts on the replayed contents as a send at that end, a receive of the front item, or a reset |
| `Queues.FirstInFirstOut` | t2Vendor/os/FreeRTOSv9.0.0/FreeRTOS/Source/queue.c:722-1525 | From a new queue, over every run of back sends and receives by any tasks and interrupts: what was received, followed by the contents, is what was accepted, in order |
| `Queues.Queue.GenericReset` | t2Vendor/os/FreeRTOSv9.0.0/FreeRTOS/Source/queue.c:278-328 | A reset empties the queue and wakes one sender, and keeps the receivers' cover; the senders' cover holds afterwards exactly if at most one sender waited or the woken ones fill the queue, and the history records which |
| `Queues.Queue.constructor` | t2Vendor/os/FreeRTOSv9.0.0/FreeRTOS/Source/queue.c:431-470 | A new queue is empty, unlocked and valid, and its history is empty |
| `Sequences.RemovedMembers` | t2Vendor/os/FreeRTOSv9.0.0/FreeRTOS/Source/queue.c:872-889 | Exactly the task that times out leaves a waiting list, without repetitions; the same for a co-routine and its ready list |
| `EventGroups.PackUnpack` | t2Vendor/os/FreeRTOSv9.0.0/FreeRTOS/Source/event_groups.c:378-399 | Wait mask and control bits packed into one word come apart again unchanged, and the decision taken from the word is the caller's condition |
| `EventGroups.ReleasedOrLeft` | t2Vendor/os/FreeRTOSv9.0.0/FreeRTOS/Source/event_groups.c:550-612 | The walk splits the waiters into exactly those the bits satisfy and those they do not |
| `EventGroups.ClearMaskCovers` | t2Vendor/os/FreeRTOSv9.0.0/FreeRTOS/Source/event_groups.c:588-594 | Everything a released waiter asked to clear is cleared |
| `EventGroups.ClearMaskOnly` | t2Vendor/os/FreeRTOSv9.0.0/FreeRTOS/Source/event_groups.c:588-594 | Nothing is cleared that no released waiter asked for |
| `EventGroups.ClearingSatisfiesNobody` | t2Vendor/os/FreeRTOSv9.0.0/FreeRTOS/Source/event_groups.c:472-496 | Clearing bits satisfies no condition, so nobody has to be woken for it |
| `EventGroups.LeftStayUnsatisfied` | t2Vendor/os/FreeRTOSv9.0.0/FreeRTOS/Source/event_groups.c:611-617 | Those left on the list stay unsatisfied after the bits are cleared, and got no value |
| `EventGroups.LeftDistinct` | t2Vendor/os/FreeRTOSv9.0.0/FreeRTOS/Source/event_groups.c:550-606 | The list left over holds each task once |
| `EventGroups.WalkStep` | t2Vendor/os/FreeRTOSv9.0.0/FreeRTOS/Source/event_groups.c:557-606 | The walk survives the removal of the item it stands on: what is behind it is decided, what is before it untouched |
| `EventGroups.AllReleased` | t2Vendor/os/FreeRTOSv9.0.0/FreeRTOS/Source/event_groups.c:208-262 | Bits that cover a mask release everyone who waits for all of it, with a value that covers it |
| `EventGroups.WithoutTaskDistinct` | t2Vendor/os/FreeRTOSv9.0.0/FreeRTOS/Source/event_groups.c:409-440 | A timed-out task leaves a list that holds each task once |
| `EventGroups.EventGroup.SetAndRelease` | t2Vendor/os/FreeRTOSv9.0.0/FreeRTOS/Source/event_groups.c:546-617 | In terms of the calls: exactly those waiters leave the list of whose bits the old and the new bits together hold all, or any, as the call asked; each is given these bits, the others stay in order, and what remains are these bits without those that a released waiter asked to have cleared |
| `EventGroups.MetIsTested` | t2Vendor/os/FreeRTOSv9.0.0/FreeRTOS/Source/event_groups.c:681-713 | The test is what the call asks: all of its bits, or any of them |
| `EventGroups.ClearedAsAsked` | t2Vendor/os/FreeRTOSv9.0.0/FreeRTOS/Source/event_groups.c:588-616 | Whatever is cleared, somebody who is released asked for it |
| `EventGroups.EventGroup.SetBits` | t2Vendor/os/FreeRTOSv9.0.0/FreeRTOS/Source/event_groups.c:530-621 | The whole call: the suspended part, then whatever others do once the scheduler runs again, and the bits that are read at the end, which need not hold the bits that were set; without others the effect is exactly that of the suspended part |
| `EventGroups.EventGroup.ReleaseMatching` | t2Vendor/os/FreeRTOSv9.0.0/FreeRTOS/Source/event_groups.c:550-606 | The traversal that removes items as it goes computes just that |
| `EventGroups.EventGroup.ClearBits` | t2Vendor/os/FreeRTOSv9.0.0/FreeRTOS/Source/event_groups.c:472-496 | Returns the old bits, clears the given ones, and nobody misses a wakeup |
| `EventGroups.EventGroup.WaitBits` | t2Vendor/os/FreeRTOSv9.0.0/FreeRTOS/Source/event_groups.c:324-407 | Returns at once exactly when the condition holds or no time is allowed; otherwise the caller joins the end of the list unsatisfied; it blocks exactly if not all, or none, of its bits are set, as it asked |
| `EventGroups.EventGroup.Finish` | t2Vendor/os/FreeRTOSv9.0.0/FreeRTOS/Source/event_groups.c:409-468 | A released caller gets a value that satisfies its condition; a timed-out one gets the bits of that moment, and clears on exit exactly if they satisfy it; no control bits are returned |
| `EventGroups.EventGroup.Sync` | t2Vendor/os/FreeRTOSv9.0.0/FreeRTOS/Source/event_groups.c:208-262 | Rendezvous: the call that completes the mask releases everyone blocked on it with a value that covers it, and leaves the mask bits clear; any other call blocks or reports the bits |
| `EventGroups.EventGroup.Run` | t2Vendor/os/FreeRTOSv9.0.0/FreeRTOS/Source/event_groups.c:208-621 | In every reachable state no waiter's condition holds of the bits, the control byte is zero, and every released caller holds a value that satisfies it |
| `Lists.List.constructor` | t2Vendor/os/FreeRTOSv9.0.0/FreeRTOS/Source/list.c:79-101 | A new list is a sentinel linked to itself |
| `Lists.List.InsertEnd` | t2Vendor/os/FreeRTOSv9.0.0/FreeRTOS/Source/list.c:116-142 | The heap list stays a well-formed ring; the new item comes up in the walk after all others, except the one returned last when the index is on an item |
| `Lists.List.Insert` | t2Vendor/os/FreeRTOSv9.0.0/FreeRTOS/Source/list.c:145-209 | Sorted and stable insertion into the heap ring: the item goes before the first greater value; the walk terminates because of the sentinel |
| `Lists.List.OnlyTheGreatestValueNeverStops` | t2Vendor/os/FreeRTOSv9.0.0/FreeRTOS/Source/list.c:163-197 | The walk would go round for ever for exactly the one value that is handled apart |
| `Lists.List.Remove` | t2Vendor/os/FreeRTOSv9.0.0/FreeRTOS/Source/list.c:212-238 | Deletes exactly this item, steps an index on it back so that the others keep their turns, and returns the new length; on entries with distinct owners it acts as ListModel.Without |
| `Lists.List.Next` | t2Vendor/os/FreeRTOSv9.0.0/FreeRTOS/Source/include/freertos_list.h:318-331 | Repeated calls visit all items in turn and never the sentinel |
| `ListModel.UpperBound` | t2Vendor/os/FreeRTOSv9.0.0/FreeRTOS/Source/list.c:145-197 | The place of a sorted insertion: behind everything not greater, before the first greater value |
| `ListModel.InsertedSorted` | t2Vendor/os/FreeRTOSv9.0.0/FreeRTOS/Source/list.c:145-209 | Sorted insertion keeps a list sorted and puts the item after its equals |
| `ListModel.WithoutMembers` | t2Vendor/os/FreeRTOSv9.0.0/FreeRTOS/Source/list.c:212-238 | Removal takes out exactly the entries of one owner |
| `ListModel.WithoutSorted` | t2Vendor/os/FreeRTOSv9.0.0/FreeRTOS/Source/list.c:212-238 | Removal keeps a list sorted |
| `CoRoutines.DelayPlacement` | t2Vendor/os/FreeRTOSv9.0.0/FreeRTOS/Source/croutine.c:201-228 | A delay is filed on the overflow list exactly when its true end lies in the next epoch |
| `CoRoutines.EndIsAsAsked` | t2Vendor/os/FreeRTOSv9.0.0/FreeRTOS/Source/croutine.c:201-228 | The end tick of the account: a delay lasts as many ticks as asked for, at least one, exactly unless it is one of no ticks at the last tick before the wrap; that one ends two whole wraps late |
| `CoRoutines.Scheduler.SwappedOutEmpty` | t2Vendor/os/FreeRTOSv9.0.0/FreeRTOS/Source/croutine.c:272-282 | The list about to be swapped out is empty, as the source demands, exactly if nobody has asked at this last tick for a delay of no ticks |
| `CoRoutines.DelayEndsOnTime` | t2Vendor/os/FreeRTOSv9.0.0/FreeRTOS/Source/croutine.c:262-317 | In every reachable history, a delay without an event is over exactly from its end tick on, and then it has timed out at exactly that tick |
| `CoRoutines.HistoryWoken` | t2Vendor/os/FreeRTOSv9.0.0/FreeRTOS/Source/croutine.c:239-259 | Waits that end early were waits for an event, and are recorded before their end tick |
| `CoRoutines.HistoryRanOut` | t2Vendor/os/FreeRTOSv9.0.0/FreeRTOS/Source/croutine.c:262-317 | Ticks that run delays out keep the account: each at its own end, and who still waits is not yet due |
| `CoRoutines.HeadHasTopPriority` | t2Vendor/os/FreeRTOSv9.0.0/FreeRTOS/Source/croutine.c:183-184 | The head of an event list has the highest priority of those that wait |
| `CoRoutines.NotYetDue` | t2Vendor/os/FreeRTOSv9.0.0/FreeRTOS/Source/croutine.c:285-293 | When the head of the sorted list has not run out, nothing on either list has |
| `CoRoutines.LastTick` | t2Vendor/os/FreeRTOSv9.0.0/FreeRTOS/Source/croutine.c:272-282 | After the delays of the last tick before the wrap have run out, none of this epoch is left, so the list can at once be one for the epoch after the next |
| `CoRoutines.RanOutStep` | t2Vendor/os/FreeRTOSv9.0.0/FreeRTOS/Source/croutine.c:266-314 | Ticks compose: handling one tick more extends the exact account of which delays ran out and when |
| `CoRoutines.TopReady` | t2Vendor/os/FreeRTOSv9.0.0/FreeRTOS/Source/croutine.c:328-341 | Since all lists above the top are empty, a co-routine from the first list that is not has the highest ready priority |
| `CoRoutines.NothingReady` | t2Vendor/os/FreeRTOSv9.0.0/FreeRTOS/Source/croutine.c:328-337 | When the walk down ends at an empty lowest list, no co-routine is ready |
| `CoRoutines.EventMoved` | t2Vendor/os/FreeRTOSv9.0.0/FreeRTOS/Source/croutine.c:370-380 | An event item that leaves its list leaves every event list consistent with the containers |
| `CoRoutines.Scheduler.Create` | t2Vendor/os/FreeRTOSv9.0.0/FreeRTOS/Source/croutine.c:144-198 | A new co-routine is ready at its priority, capped at the highest; without memory nothing changes |
| `CoRoutines.Scheduler.AddToReadyQueue` | t2Vendor/os/FreeRTOSv9.0.0/FreeRTOS/Source/croutine.c:109-116 | The item goes before the index of its priority's list, so that its turn comes after all others but the one called last; the top priority is raised to it |
| `CoRoutines.Scheduler.AddToDelayedList` | t2Vendor/os/FreeRTOSv9.0.0/FreeRTOS/Source/croutine.c:201-236 | The current co-routine moves to the delay list of the epoch its wait ends in, for any number of ticks, and to the event list in priority order; the wait is recorded and the account stays right |
| `CoRoutines.Scheduler.CheckPendingReadyList` | t2Vendor/os/FreeRTOSv9.0.0/FreeRTOS/Source/croutine.c:239-259 | Everything on the pending list becomes ready although interrupts go on adding to it; exactly those that leave the delay lists are recorded as woken, and they had waited for an event |
| `CoRoutines.Scheduler.AdvanceTick` | t2Vendor/os/FreeRTOSv9.0.0/FreeRTOS/Source/croutine.c:269-282 | At a wrap the lists are swapped, and each is then for the right epoch |
| `CoRoutines.Scheduler.CheckDelayedList` | t2Vendor/os/FreeRTOSv9.0.0/FreeRTOS/Source/croutine.c:262-317 | Delays are exact: exactly the delays that end by now run out, each recorded once and at its own true tick |
| `CoRoutines.Scheduler.RemoveFromEventList` | t2Vendor/os/FreeRTOSv9.0.0/FreeRTOS/Source/croutine.c:370-392 | Marks the waiter of highest priority as ready, and tells whether it is at least as high as the current one; its delay entry stays |
| `CoRoutines.Scheduler.PickNext` | t2Vendor/os/FreeRTOSv9.0.0/FreeRTOS/Source/croutine.c:328-341 | Of the highest priority that has a ready co-routine, the one whose turn it is becomes current and goes to the end of the order of turns; none exactly if nothing is ready |
| `CoRoutines.Scheduler.LeaveReadyList` | t2Vendor/os/FreeRTOSv9.0.0/FreeRTOS/Source/croutine.c:209-212 | A co-routine that begins to wait leaves its list; the order of turns of the others stays as it is |
| `CoRoutines.Scheduler.NobodyStarves` | t2Vendor/os/FreeRTOSv9.0.0/FreeRTOS/Source/croutine.c:328-341 | In every reachable state, a ready co-routine has been passed over by at most 2(n-1) calls of others of its priority since it was last called or became ready, where n co-routines have that priority |
| `RoundRobin.PickFair` | t2Vendor/os/FreeRTOSv9.0.0/FreeRTOS/Source/croutine.c:339-341 | A call from a list keeps the bound: who is passed over once more is one step nearer to its turn |
| `RoundRobin.JoinFair` | t2Vendor/os/FreeRTOSv9.0.0/FreeRTOS/Source/croutine.c:109-116 | Joining a list does not take anybody on it further from its turn |
| `RoundRobin.LeaveFair` | t2Vendor/os/FreeRTOSv9.0.0/FreeRTOS/Source/croutine.c:209-212 | Nor does leaving it, although the index may step back |
| `RoundRobin.NextTurn` | t2Vendor/os/FreeRTOSv9.0.0/FreeRTOS/Source/croutine.c:339-341 | The one that is called goes to the end of the order of turns |
| `RoundRobin.JoinedTurn` | t2Vendor/os/FreeRTOSv9.0.0/FreeRTOS/Source/croutine.c:109-116 | Who joins comes after all others but the one called last |
| `RoundRobin.UnequalShare` | t2Vendor/os/FreeRTOSv9.0.0/FreeRTOS/Source/croutine.c:339-341 | The bound is met for every number of others: beside a co-routine that stays ready, others that leave and join again after each turn have two turns each for one of its own |
| `CoRoutines.Scheduler.Choose` | t2Vendor/os/FreeRTOSv9.0.0/FreeRTOS/Source/croutine.c:320-341 | Before the co-routine is called: whoever was woken by an event leaves the delay lists and is ready, the account of delays is extended to now, and the choice is recorded with the co-routines that are ready, of which it has the highest priority |
| `CoRoutines.Scheduler.Schedule` | t2Vendor/os/FreeRTOSv9.0.0/FreeRTOS/Source/croutine.c:320-347 | One call of the scheduler, whatever the co-routine and interrupts do, keeps all invariants, records every pending wakeup as the end of its wait, and calls one co-routine of the highest ready priority, those just woken among the ready, or none because every co-routine waits; exactly those picked are called |
| `CoRoutines.Scheduler.Run` | t2Vendor/os/FreeRTOSv9.0.0/FreeRTOS/Source/croutine.c:144-347 | Every run from a new scheduler, with co-routines created inside and outside of co-routines, keeps them: each co-routine is on its ready list or one delay list, every delay that ended by time ended at exactly its tick, every choice had the highest ready priority, every pending wakeup ends its wait, and histories only grow |
| `StreamSearch.EndsWithNext` | cores/arduino/api/Stream.cpp:272-278 | A character extends exactly the prefix whose next character it is |
| `StreamSearch.ShorterPrefix` | cores/arduino/api/Stream.cpp:300-313 | Comparing the found part with itself, shifted, tells exactly which shorter prefixes also end the input |
| `StreamSearch.NoLongerPrefix` | cores/arduino/api/Stream.cpp:271-278 | The index can grow by at most one |
| `StreamSearch.WalkBack` | cores/arduino/api/Stream.cpp:287-316 | After a mismatch the index becomes the length of the longest shorter prefix that the new character completes |
| `StreamSearch.Advance` | cores/arduino/api/Stream.cpp:271-317 | After every character each index is the length of the longest incomplete prefix of the target that ends the input so far, and a target is complete exactly when it ends there |
| `StreamSearch.Stream.Feed` | cores/arduino/api/Stream.cpp:271-317 | The lowest-numbered target that a character completes is reported, and none exactly when none ends there |
| `StreamSearch.Stream.FindMulti` | cores/arduino/api/Stream.cpp:258-321 | Stops at the earliest position where any target ends, returns the lowest-numbered one that ends there, and -1 only if none ends before the timeout; an empty target matches at once |
| `StreamSearch.Stream.FindUntil` | cores/arduino/api/Stream.cpp:116-125 | True exactly if the target ends somewhere with no terminator ending earlier, and then stops at the first such place |
| `StreamNumbers.PeekNextDigit` | cores/arduino/api/Stream.cpp:58-84 | Throws away exactly the characters that may be skipped, up to the first that a number may start with, and reports that one or that there is none |
| `StreamNumbers.WhatIsDiscarded` | cores/arduino/api/Stream.cpp:58-84 | Character by character: nothing with no lookahead, only spaces, tabs, returns and newlines with whitespace, anything but what a number may start with otherwise |
| `StreamNumbers.ParseInt` | cores/arduino/api/Stream.cpp:132-158 | In every case in which the call returns: reads the first number of the stream in 32-bit arithmetic, leaving out the character to ignore, and stops at the first character that does not belong to it; zero if there is none |
| `StreamNumbers.WrappedStep` | cores/arduino/api/Stream.cpp:142-157 | Wrapping at every step gives what wrapping once at the end would |
| `StreamNumbers.GoesOnAfterTimeout` | cores/arduino/api/Stream.cpp:150-153 | The loop goes on for ever after a timeout for exactly one character to ignore, the byte 0xFF |
| `StreamNumbers.PrintedNumber` | cores/arduino/api/Stream.cpp:132-158 | Round trip: the decimal text that print writes for any 32-bit number is read back as that number, whatever follows it that does not go on like a number |
| `Printing.DigitsValue` | cores/arduino/api/Print.cpp:250-255 | The printed digits are a numeral without leading zeros, and it stands for the number |
| `Printing.DigitsUnique` | cores/arduino/api/Print.cpp:250-255 | There is no other such numeral |
| `Printing.ManyDigits` | cores/arduino/api/Print.cpp:242-243 | A number of so many bits has at most that many digits in any base, so the buffers suffice |
| `Printing.JoinedQuotient` | cores/arduino/api/Print.cpp:316-321 | Dividing the remainder of a chunk gives the digits that dividing the whole number would give |
| `Printing.ChunkSize` | cores/arduino/api/Print.cpp:299-306 | The chunk is a power of the base, at least 0xFFFF/base and at most 0xFFFF, of fewer than 16 digits |
| `Printing.Chunk` | cores/arduino/api/Print.cpp:316-321 | A chunk fills in exactly its digits, leading zeros included, and stays in the buffer of 64 |
| `Printing.FillChunks` | cores/arduino/api/Print.cpp:308-322 | What is left after the chunks is not zero and fits 16 bits |
| `Printing.FillBuffer` | cores/arduino/api/Print.cpp:299-330 | The buffer holds the digits of the number in reverse, in at most 64 bytes |
| `Printing.FastMatchesReference` | cores/arduino/api/Print.cpp:260-339 | The fast form writes what the reference writes for every 64-bit number and base, exactly unless a digit 201 ends the reference's string early, which needs a base above 201 |
| `Printing.Print.PrintULLReference` | cores/arduino/api/Print.cpp:260-280 | The reference writes the numeral in the given base, ten for a base below two, as far as its first zero byte |
| `Printing.Print.PrintULLNumber` | cores/arduino/api/Print.cpp:283-339 | The fast form writes, for every 64-bit number and every base (ten for a base below two), the numeral without leading zeros that stands for the number in that base, digits from ten up as capital letters, and returns its length |
| `Printing.Print.PrintNumber` | cores/arduino/api/Print.cpp:240-258 | 32-bit numbers: the numeral in the given base, ten for a base below two, as far as its first zero byte |
| `Printing.TextUnique` | cores/arduino/api/Print.cpp:240-339 | There is one such text for each number and base |
| `Printing.LongTextMeans` | cores/arduino/api/Print.cpp:88-102 | What print of a signed number is to write: the low byte for base 0, the decimal numeral with its sign for base 10, the numeral of the 32-bit pattern in other bases |
| `Printing.Print.PrintLong` | cores/arduino/api/Print.cpp:88-102 | Decimal with a sign for every 32-bit number, the smallest included; the 32-bit pattern in other bases; the low byte itself for base 0 |
| `AddressText.Parse6Exact` | cores/arduino/api/IPAddress.cpp:183-249 | The parser accepts exactly eight groups with single colons, or at most seven around one double colon, and gives each the value it stands for |
| `AddressText.DoubleColonExact` | cores/arduino/api/IPAddress.cpp:198-234 | When a double colon is read as the missing zero fields: exactly if the groups on the two sides, a side without groups counted as one, are at most seven |
| `AddressText.LeadingColonAccepted` | cores/arduino/api/IPAddress.cpp:198-222 | A single colon in front of seven groups is read as a zero field, though section 2.2 of RFC 4291 has no such form |
| `AddressText.ScanGroup` | cores/arduino/api/IPAddress.cpp:190-197 | The digits of a group are read into the accumulator, in either case of letters |
| `AddressText.EitherCase` | cores/arduino/api/IPAddress.cpp:190-197 | The digits of a group are the sixteen hexadecimal ones, the letters in either case |
| `AddressText.ExpandBesideZero` | cores/arduino/api/IPAddress.cpp:209-245 | The shortcut that does not count a zero field before the double colon restores the same fields |
| `DottedText.Parse4Exact` | cores/arduino/api/IPAddress.cpp:131-181 | The parser accepts exactly four decimal parts of at most 255 with dots between them, and gives each the value it stands for |
| `CanonicalText.ShortHexDigits` | cores/arduino/api/IPAddress.cpp:330-343 | The nibble tests drop exactly the leading zeros (section 4.1 of RFC 5952): what is left is the hexadecimal numeral of the field |
| `CanonicalText.SmallLetters` | cores/arduino/api/IPAddress.cpp:330-343 | Digits from ten up are small letters (section 4.3 of RFC 5952) |
| `CanonicalText.WithoutRunExact` | cores/arduino/api/IPAddress.cpp:183-249 | Leaving out any run of zero fields is undone by the parser exactly if the run has two fields or touches no end; section 2.2 of RFC 4291 also allows the single field at an end |
| `CanonicalText.CanonicalRoundTrip` | cores/arduino/api/IPAddress.cpp:302-355 | The printed text of every IPv6 address parses to its fields |
| `CanonicalText.FullRoundTrip` | cores/arduino/api/IPAddress.cpp:104-113 | The full text of every IPv6 address parses to its fields |
| `CanonicalText.DottedRoundTrip` | cores/arduino/api/IPAddress.cpp:97-102 | The text of every IPv4 address parses to its bytes |
| `CanonicalText.ColonIsNotDotted` | cores/arduino/api/IPAddress.cpp:124-181 | A text with a colon is never taken for an IPv4 address |
| `CanonicalText.RunIsWhole` | cores/arduino/api/IPAddress.cpp:308-327 | The run that is left out is as long as it can be (section 4.2.1 of RFC 5952) |
| `CanonicalText.EmittedCanonical` | cores/arduino/api/IPAddress.cpp:328-353 | The fields written one by one, with their colons, make up the text with the run replaced by a double colon |
| `IPAddresses.IPAddress.LongestRun` | cores/arduino/api/IPAddress.cpp:308-327 | The scan finds the leftmost of the longest runs of at least two zero fields, or that there is none (sections 4.2.2 and 4.2.3 of RFC 5952) |
| `IPAddresses.IPAddress.PrintTo` | cores/arduino/api/IPAddress.cpp:302-365 | Writes the one canonical text and returns its length |
| `CanonicalText.RunUnique` | cores/arduino/api/IPAddress.cpp:308-327 | There is one leftmost longest run, so the canonical text is one |
| `IPAddresses.IPAddress.ToString4` | cores/arduino/api/IPAddress.cpp:97-102 | The dotted text fits its buffer |
| `IPAddresses.IPAddress.ToString6` | cores/arduino/api/IPAddress.cpp:104-113 | All eight fields with four digits each fit the buffer |
| `IPAddresses.IPAddress.FromString4` | cores/arduino/api/IPAddress.cpp:131-181 | In place: the four bytes and the type on success, and exactly what a rejected text leaves behind |
| `IPAddresses.IPAddress.FromString6` | cores/arduino/api/IPAddress.cpp:183-249 | In place: the fields, moved apart for the double colon, and exactly what a rejected text leaves behind |
| `IPAddresses.IPAddress.FromString` | cores/arduino/api/IPAddress.cpp:124-129 | The outcome depends on the text alone; what the object held before matters only for the type that a failed attempt leaves |
| `IPAddresses.SpreadBytes` | cores/arduino/api/IPAddress.cpp:240-245 | The two loops that move bytes up and clear the gap put the zero fields where the double colon was |
| `IPAddresses.ReadPrinted6` | cores/arduino/api/IPAddress.cpp:104-249 | Round trip: for every 16 bytes, the printTo text and the toString6 text are read back as the same bytes and type, whatever type the object had |
| `IPAddresses.ReadPrinted4` | cores/arduino/api/IPAddress.cpp:97-181 | Round trip: the text of an IPv4 address is read back as its four bytes, and the object is the same exactly if its first twelve bytes are zero |
| `IPAddresses.RejectedTextLeavesFields` | cores/arduino/api/IPAddress.cpp:124-222 | Those bytes are not always zero: a text that is rejected late leaves fields in an object that stays an IPv4 address |

## Left out

- Queues.Queue.SendFromISR: overwriting a queue of empty items is excluded here and treated in `Queues.Queue.CopyDataToQueue`. After a lock count has overflowed, no cover is claimed for that side any more; `Queues.LockedInterrupt` says exactly when the one overflow spoils it.
- Queues.Queue.SleepReceive: which place a task takes in a waiting list is left open, because the priority order is kept by `tasks.c`; the same holds for `Queues.Queue.SleepSend`.
- Timers.Daemon.ProcessCommand: pended function calls (`INCLUDE_xTimerPendFunctionCall` is 0) and freeing the memory of a deleted timer are not modelled.
- Timers.Daemon.TimerTask: the timer and event lists are sequences of owners and values here, not the heap lists of `Lists`; the same holds for event groups and co-routines. `Lists.List.Insert` is proved to act on the heap as `ListModel.Inserted` acts on sequences.
- CoRoutines.Scheduler.PickNext: the co-routine's own code is any sequence of the operations it may call, with at most one wait at the end, as the macros have it.
- CoRoutines.Scheduler.CheckDelayedList: the kernel's tick count is read once, as in the source, and is a parameter here.
- Printing.Print.PrintLong: negating the smallest 32-bit number is undefined in C++; the model wraps. Bytes are unsigned.
- IPAddresses.IPAddress.FromString: letters are classified as in the C locale; a text is a byte sequence without zero bytes.
- StreamNumbers.ParseInt: says nothing of the one case in which the call does not return, where 0xFF is the character to ignore and the stream runs dry inside the number (`StreamNumbers.Returns`, `StreamNumbers.GoesOnAfterTimeout`); signed overflow wraps.
- StreamSearch.Stream.FindMulti: a read either gives the next byte or times out for good; the clock behind the timeout is not modelled.
- Mutexes and priority inheritance, queue sets, the queue registry, trace hooks and static allocation: configuration variants around the same ring and lists.
- Deletion of queues, event groups and timers: memory management.
- `xTimerGetNextExpireTime` and `xTimerGetCurrentTimerCount`: they read the daemon's state from outside, against the rule that only the daemon touches it.
- `tasks.c`: scheduling and timeouts appear as nondeterministic steps with the stated effects on waiting lists.
- `parseFloat` and `printFloat`: floating point with empirical constants.
- `String.cpp`, the ring buffers, drivers and wrappers: no property as hard as those above.
