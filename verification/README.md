# The concurrent programs and the POSIX.1b library of the Open POSIX Test Suite, verified

This project models, in Dafny, the parts of the suite whose correctness is not visible in any one
function body:

- four classic programs on POSIX semaphores: the bounded buffer with many producers and consumers,
  the dining philosophers, readers/writers and the sleeping barber;
- the `posix1b` library, which builds named semaphores, message queues and timers on System V IPC
  and one interval timer.

Nothing was executed; every statement below is a proof about the model. Verify all of it with
`dafny verify dfyconfig.toml`.

## How the programs are modelled

**Concurrent programs.** A state holds the shared memory, the semaphores and one program counter
per thread. A step is one semaphore call or one statement on shared memory by one thread, so a run is
a schedule: the sequence of threads that moved (`Runs.dfy`). A run is *maximal* when no thread can
move at its end. `sem_wait` is an atomic guarded decrement, `sem_post` an atomic increment. The
numbers of threads, slots, chairs and rounds are arbitrary. Beside each state machine stands a class
(`SharedBuffer`, the philosophers' `Table`, `Blackboard`, `Shop`) whose fields are the program's
variables, whose methods update them in place, one statement at a time, and whose `CreateAndJoin` is
`main`: it lets an arbitrary scheduler pick who moves until nobody can, and is proved to terminate.
Invariants count threads by program counter (`Sums.dfy`).

| program | model | whole runs | in place |
|---|---|---|---|
| bounded buffer | `BoundedBuffer.dfy` | `BoundedBufferRuns.dfy` | `BoundedBufferThreads.dfy` |
| philosophers | `Philosophers.dfy` | `PhilosophersRuns.dfy` | `PhilosophersThreads.dfy` |
| readers/writers | `ReadersWriters.dfy` | `ReadersWritersRuns.dfy` | `ReadersWritersThreads.dfy` |
| barber | `Barber.dfy` | `BarberRuns.dfy` | `BarberThreads.dfy` |

**Named semaphores.** `SystemV.dfy` is `semop` on the three-cell set with SEM_UNDO adjustments,
`NamedSemaphore.dfy` the library over any number of processes, handles and one unlinker, where a
process may exit at any point. Steps are system calls. As the library's order of unlinking the file
before dropping the flag demands, no `sem_open` is in flight across the unlinking of the name;
`NamedSemaphoreOverlap.dfy` says what happens otherwise. `NamedSemaphoreDeletion.dfy` is about who
removes the set.

**Message queues.** The kernel's typed queue is a sequence of packets; its reading as a priority
queue is `Queue`. A history of calls goes through any number of descriptors, each with its own
non-blocking flag and permissions, and may include IPC_RMID on the queue while they are open.
(`mq_unlink` looks the queue up under `ftok(name, 0)` and `mq_open` under `ftok(name, 'a')`, so which
queue an `mq_unlink` removes depends on the system; the model takes the removal as given.)

**Timers.** `struct timeval` arithmetic and one handler pass are functions (`TimeArithmetic.dfy`,
`TimerPass.dfy`); the list `active_timers` is a linked structure of `Timer` objects that the methods
of `Timers.Table` walk and relink in place. The current time is an argument; the timers notified and
the value given to `setitimer` are results. `TimerHistory.dfy` is about any sequence of passes and
settings; `Handle` and `SetSoundly` are proved to be its steps.

## What turned out not to hold

- **Barber.** Customers can wait for ever. Every maximal run finishes every customer if and only if
  `CUS_NUM <= LOOP_NUM` or there is no chair (`NobodyStrandedIffEnoughRounds`).
- **Named semaphores, removal.** If a process may exit between its calls, an unlinked set can be left
  behind for ever. The exits that do it are exactly two kinds (`Abandons`): of the unlinker between
  unlinking the name and dropping the flag; and, the flag dropped, of the process that has every
  handle still open or closing and the pending check of `sem_unlink`, if any. Every run leaves the set
  behind if and only if it has such an exit (`RunAbandonsIff`). Without an exit half way the set is
  removed exactly if it is unlinked (`UnlinkedSetIsRemoved`).
- **Named semaphores, hang.** `sem_unlink` waits for the flag, so it never returns if the set was
  created and nobody is going to initialise it: the creator exited between `semget` and its first
  `semop`. The wait ends exactly if the set is initialised (`DropProceedsIffInitialised`); a program
  can get there if and only if a process other than the unlinker can create the set
  (`NeverStallsIff`).
- **Named semaphores, overlap.** With an opening in flight across the unlinking, two initial values
  can be added to one set if and only if two openers can create it, one of them without O_EXCL
  (`InitialisesOnceIff`).
- **Message queues.** `mq_send` reports 0 for a message that was never queued, exactly when `msgsnd`
  fails after its own checks: for priority `MQ_PRIO_MAX`, which passes and becomes type 0; for a
  message longer than the system takes; for a queue that was removed; for a process that may not write
  to it; and for a queue without room, or a system at its limit of messages, if the call does not wait
  or is interrupted. After any history of calls, the messages reported as sent are the ones received,
  removed with the queue or still queued if and only if there was no such call (`ReportsAreTrueIff`).
- **Notification.** Every `mq_open` clears the shared request, so a registration can vanish without a
  signal (`Reopen`).
- **Timer list.** When neighbours in the list are one-shots that fall due together, the walk goes on
  through the timer it has just unlinked, and every second one of the row stays in the list although
  it is no longer marked as running. The list holds exactly the timers that go on if and only if there
  is no such pair (`KeepsPendingIff`, `RunningIffListed`). Setting a timer left behind that way links
  it in twice, and then the links form no list at all (`SetTime` says exactly when, `ListIsLost`
  exhibits it).
- **One-shots.** A one-shot can be notified more than once. If a pass notifies it and it is not set
  again, a later pass notifies it again if and only if the first one left it in the list: the table
  was in single mode, or the number of one-shots falling due directly before it in the list was odd
  (`NotifiedAgainIff`; `FiresTwice` exhibits the first case).
- **Single mode.** The handler asserts that single mode has exactly one timer. In every history that
  holds, exactly unless the last call set a timer to zero while none was listed (`AssertionHoldsIff`).
- **`compare_time`.** It is exact except between (s, 1000000) and (s + 1, 0), two writings of one time
  that `add_time` can produce because it carries only above 1000000 (`CompareIsExactIff`).

## Model

| member | source | states |
|---|---|---|
| `BoundedBuffer.WrapIsModulo` | stress/semaphores/multi_con_pro.c:65 | The model's ring successor is the source's increment modulo the buffer size. |
| `BoundedBuffer.RingKeptByProducer` | stress/semaphores/multi_con_pro.c:49-73 | No producer step overwrites an unread slot: the unread part of the ring still spells the unread part of the produced history. |
| `BoundedBuffer.RingKeptByConsumer` | stress/semaphores/multi_con_pro.c:112-134 | Every consumer step reads the oldest unread item. |
| `BoundedBuffer.StepKeepsInv` | stress/semaphores/multi_con_pro.c:40-141 | Every step keeps the counting laws (one lock holder; every slot free, reserved, occupied or being returned; every item announced, about to be, or claimed), both positions, the ring, each producer's order and the marker counts. |
| `BoundedBufferRuns.StoringEnqueues` | stress/semaphores/multi_con_pro.c:62-65 | The ring, read from the ring itself, gains `100 * k + i` at its end in round i of producer k, and -1 after the rounds; other producer steps leave it alone. |
| `BoundedBufferRuns.TakingDequeues` | stress/semaphores/multi_con_pro.c:120-122 | The ring loses its head, which is what the consumer got; other consumer steps leave it alone. |
| `BoundedBufferRuns.InvIsFirstInFirstOut` | stress/semaphores/multi_con_pro.c:49-137 | What was consumed is a prefix of what was produced; all of it came from the producers; and the values of each producer k, stored or consumed, are `100 * k`, `100 * k + 1` and so on, in order, with -1 only after `100 * k + Max_Num - 2`. |
| `BoundedBufferRuns.ExitedProducerStoredAll` | stress/semaphores/multi_con_pro.c:49-100 | A producer that has exited has stored exactly `100 * k + i` for i from 0 to `Max_Num` - 2, in order, and then -1. |
| `BoundedBufferRuns.StuckOnlyWhenDone` | stress/semaphores/multi_con_pro.c:48-137 | A reachable state in which no thread can move is one in which all threads have exited. |
| `BoundedBufferRuns.LastItemIsMarker` | stress/semaphores/multi_con_pro.c:75-100 | Once all producers have exited, the globally last item stored is a -1. |
| `BoundedBufferRuns.DoneIsDrained` | stress/semaphores/multi_con_pro.c:75-137 | When all have exited, what was consumed is those values of every producer, in its order, and nothing else; each consumer took exactly one -1, `in` equals `out`, `full` is the buffer size, `empty` is 0 and the lock is free. |
| `BoundedBufferRuns.EveryRun` | stress/semaphores/multi_con_pro.c:40-141 | In every interleaving: first in, first out, and at most twelve steps per item. |
| `BoundedBufferRuns.EveryMaximalRun` | stress/semaphores/multi_con_pro.c:40-200 | Every maximal run, for every number of threads, buffer size and `Max_Num`, ends with all threads exited and all values of all producers consumed, as above, after exactly twelve steps per item. |
| `BoundedBufferThreads.SharedBuffer.constructor` | stress/semaphores/multi_con_pro.c:170-185 | The semaphores and positions `main` starts with. |
| `BoundedBufferThreads.SharedBuffer.ProducerStep` | stress/semaphores/multi_con_pro.c:40-102 | One statement of `producer`, in place, is exactly the producer's step of the model; the slot written gets `100 * k + i`, or -1 after the rounds. |
| `BoundedBufferThreads.SharedBuffer.ConsumerStep` | stress/semaphores/multi_con_pro.c:103-141 | One statement of `consumer`, in place, is exactly the consumer's step of the model. |
| `BoundedBufferThreads.SharedBuffer.CreateAndJoin` | stress/semaphores/multi_con_pro.c:186-200 | Under any scheduler the program terminates, drained. |
| `Philosophers.ExclusionKept` | functional/semaphores/sem_philosopher.c:46-65 | No step makes two neighbours eat, whoever moves and whomever the step tests. |
| `Philosophers.NeighboursAreModulo` | functional/semaphores/sem_philosopher.c:49-57 | The neighbours are the places `p - 1` and `p + 1` modulo the number of philosophers: the table is a ring. |
| `PhilosophersRuns.StepKeepsInv` | functional/semaphores/sem_philosopher.c:46-112 | Every step keeps lock ownership, mood by program counter, exclusion, the private semaphores as outstanding grants, and that every hungry philosopher has an eating neighbour or is still to be tested. |
| `PhilosophersRuns.InvIsSafe` | functional/semaphores/sem_philosopher.c:59-109 | With two philosophers or more, `p` and `p + 1` modulo their number are never both between passing their private wait and setting `thinking`; with the lock free, of the places `p - 1` and `p + 1` around a hungry `p`, modulo their number, one eats; `ph[i]` is 1 exactly for a meal granted, posted and not taken up. |
| `PhilosophersRuns.StuckOnlyWhenDone` | functional/semaphores/sem_philosopher.c:66-112 | No reachable deadlock. |
| `PhilosophersRuns.EveryRun` | functional/semaphores/sem_philosopher.c:46-112 | The three safety laws hold in every run, for every number of philosophers and rounds; no run exceeds eleven steps per meal. |
| `PhilosophersRuns.EveryMaximalRun` | functional/semaphores/sem_philosopher.c:66-146 | Every maximal run ends with everybody done, everybody having eaten exactly `LOOP_NUM` times, after exactly eleven steps per meal. |
| `PhilosophersThreads.Table.Test` | functional/semaphores/sem_philosopher.c:46-65 | `test` in place: who is hungry with neither `p - 1` nor `p + 1`, modulo the number of philosophers, eating starts to eat, nothing else changes. |
| `PhilosophersThreads.Table.Step` | functional/semaphores/sem_philosopher.c:66-112 | One statement of `philosopher`, in place, is the step of the model. |
| `PhilosophersThreads.Table.CreateAndJoin` | functional/semaphores/sem_philosopher.c:127-146 | Under any scheduler all philosophers finish, fed `LOOP_NUM` times. |
| `ReadersWriters.StepKeepsInv` | functional/semaphores/sem_readerwriter.c:47-103 | Every step keeps: one holder of `r_lock`, `reader_count` equal to the readers between increment and decrement, one owner of `w_lock` (a writer or the readers together), data and reads tied to the completed writes. |
| `ReadersWritersRuns.InvIsSafe` | functional/semaphores/sem_readerwriter.c:36-103 | A writer in `write_fun` excludes every other writer and reader; a reader in `read_fun` finds the last completed write, or 0. |
| `ReadersWritersRuns.BlockedFirstReaderIsServed` | functional/semaphores/sem_readerwriter.c:50-61 | A reader blocked on `w_lock` while holding `r_lock` can move as soon as no writer is inside. |
| `ReadersWritersRuns.StuckOnlyWhenDone` | functional/semaphores/sem_readerwriter.c:47-103 | No reachable deadlock. |
| `ReadersWritersRuns.EveryRun` | functional/semaphores/sem_readerwriter.c:36-103 | Exclusion and currency in every run, for any numbers of readers and writers; every run is finite. |
| `ReadersWritersRuns.ReadGetsLastWrite` | functional/semaphores/sem_readerwriter.c:36-39 | In every run, from the step in which a reader reads on, what it got is what the last write completed before that step had put on the board. |
| `ReadersWritersRuns.LastWrittenIs101Times` | functional/semaphores/sem_readerwriter.c:41-44 | The board shows 101 times the number of the last writer, and 0 before any. |
| `ReadersWritersRuns.EveryMaximalRun` | functional/semaphores/sem_readerwriter.c:36-139 | Every maximal run ends with both semaphores at 1, `reader_count` 0, every writer having written once and seen 101 times its number, the last of these on the board, and every reader holding what the last write completed before the step in which it read had put there. |
| `ReadersWritersRuns.HandOffHappens` | functional/semaphores/sem_readerwriter.c:50-82 | With two readers there is a run in which the one that takes `w_lock` has gone and the other gives it back. |
| `ReadersWritersThreads.Blackboard.ReaderStep` | functional/semaphores/sem_readerwriter.c:36-85 | One statement of `reader`, in place, is the reader's step of the model; what the reader has got changes only in `read_fun`, to what is on the board. |
| `ReadersWritersThreads.Blackboard.WriterStep` | functional/semaphores/sem_readerwriter.c:86-103 | One statement of `writer`, in place, is the writer's step of the model. |
| `ReadersWritersThreads.Blackboard.CreateAndJoin` | functional/semaphores/sem_readerwriter.c:117-139 | Under any scheduler the program terminates, settled, every reader holding what the last write completed before its read had put on the board. |
| `Barber.StepKeepsInv` | functional/semaphores/sem_sleepingbarber.c:53-129 | Every step keeps the conservation laws: `waiting` within the chairs and equal to `customer` plus those in transit; seated equals waiting plus cuts; cuts equal `barber` plus posts in transit plus customers served. |
| `Barber.GuardHolds` | functional/semaphores/sem_sleepingbarber.c:68-77 | The barber's guard `waiting >= 1` holds whenever it is reached. |
| `BarberRuns.LeftOverOnlyIfBarberIsHome` | functional/semaphores/sem_sleepingbarber.c:53-129 | In a state in which nobody can move, the customers still waiting are exactly as many as were seated beyond the number of rounds, the served ones are the others, and somebody waits only if the barber has gone. |
| `BarberRuns.EveryRun` | functional/semaphores/sem_sleepingbarber.c:53-129 | The conservation laws and the guard hold in every run; every run is finite. |
| `BarberRuns.SentAwayIff` | functional/semaphores/sem_sleepingbarber.c:98-128 | In every run a customer is sent away if and only if, at the step in which it looked, every chair was taken. |
| `BarberRuns.EveryMaximalRun` | functional/semaphores/sem_sleepingbarber.c:53-166 | With enough rounds every maximal run ends with nobody waiting, as many cuts as customers served, and every customer served except exactly those that looked when all chairs were taken. |
| `BarberRuns.CustomerIsStranded` | functional/semaphores/sem_sleepingbarber.c:56-128 | Without enough rounds there is a maximal run that leaves a customer waiting. |
| `BarberRuns.NobodyStrandedIffEnoughRounds` | functional/semaphores/sem_sleepingbarber.c:53-166 | All maximal runs finish all customers if and only if customers do not exceed rounds or there is no chair. |
| `BarberThreads.Shop.BarberStep` | functional/semaphores/sem_sleepingbarber.c:53-90 | One statement of `barbers`, in place, is the barber's step of the model. |
| `BarberThreads.Shop.CustomerStep` | functional/semaphores/sem_sleepingbarber.c:91-129 | One statement of `customers`, in place, is the customer's step of the model. |
| `BarberThreads.Shop.CreateAndJoin` | functional/semaphores/sem_sleepingbarber.c:148-166 | Under any scheduler the shop comes to rest with exactly the customers seated beyond the number of rounds still waiting; with enough rounds, closed. |
| `SystemV.InitialiseEffect` | posix1b/semaphore.c:141-154 | The four-operation array succeeds exactly on an uninitialised set, then sets the flag, adds the initial value and counts the access with its undo; otherwise it fails at once and changes nothing. |
| `SystemV.JoinEffect` | posix1b/semaphore.c:156-165 | The three-operation array succeeds exactly on an initialised set and only counts the access; otherwise it fails at once with O_CREAT and sleeps without. |
| `SystemV.LastEffect` | posix1b/semaphore.c:278-286 | The check of `sem_close` succeeds exactly when no access is counted and the flag is dropped, and changes nothing. |
| `SystemV.SingleEffects` | posix1b/semaphore.c:208-277 | When each one-operation array succeeds, fails at once or sleeps, and what it changes. |
| `NamedSemaphore.CloseNeverSleeps` | posix1b/semaphore.c:273-277 | The decrement in `sem_close` never blocks. |
| `NamedSemaphore.ExitKeepsCells` | posix1b/semaphore.c:151-164 | When a process exits, its undo adjustment takes exactly its open handles off the access counter. |
| `NamedSemaphore.StepKeepsInv` | posix1b/semaphore.c:103-290 | Every system call and every exit keeps the protocol's invariant. |
| `NamedSemaphoreRuns.EveryRun` | posix1b/semaphore.c:103-290 | In every run: initialised at most once, flag 0 or 1, nobody returns from `sem_open` before that; the access counter is the number of open handles, all in live processes; the value is initial value plus posts minus waits; a removed set was unlinked and is open nowhere. |
| `NamedSemaphoreRuns.CreatorOpensInTwoCalls` | posix1b/semaphore.c:140-167 | An opener with O_CREAT never sleeps and its second `semop`, or its first on a fresh set, succeeds. |
| `NamedSemaphoreRuns.JoinerWaitsForInitialisation` | posix1b/semaphore.c:156-167 | Without O_CREAT opening proceeds exactly when the semaphore is initialised. |
| `NamedSemaphoreDeletion.DropProceedsIffInitialised` | posix1b/semaphore.c:255-258 | The blocking `semop` of `sem_unlink` gets through if and only if the set is initialised. |
| `NamedSemaphoreDeletion.UnlinkedSetIsRemoved` | posix1b/semaphore.c:254-287 | Without an exit half way that `semop` always gets through, and once no handle is open or closing and `sem_unlink` has returned or not yet unlinked, the set is removed if and only if the name is gone. |
| `NamedSemaphoreDeletion.StepAbandonsIff` | posix1b/semaphore.c:242-290 | Of all steps, exactly the exits described above abandon the set: the unlinker's between unlinking and dropping, and the last looker's after that. |
| `NamedSemaphoreDeletion.AbandonedStays` | posix1b/semaphore.c:242-290 | No step ends that condition. |
| `NamedSemaphoreDeletion.RunAbandonsIff` | posix1b/semaphore.c:103-290 | Every run ends with the set abandoned if and only if one of its exits was such an exit. |
| `NamedSemaphoreDeletion.EveryFinishedRun` | posix1b/semaphore.c:103-290 | When nothing is left to do but to exit: no handle open, no access counted, and with the name gone the set is removed if and only if `sem_unlink` is not stalled and no exit abandoned it; without an exit half way, removed if and only if the name is gone. |
| `NamedSemaphoreDeletion.EveryMaximalRun` | posix1b/semaphore.c:103-290 | At the end of every maximal run everybody has exited, no access is counted, and the set is removed if and only if the name is gone and no exit abandoned it. |
| `NamedSemaphoreDeletion.LeakHappens` | posix1b/semaphore.c:254-287 | Any handle that can create the set has a run that abandons it. |
| `NamedSemaphoreDeletion.RemovalGuaranteedIffNeverCreated` | posix1b/semaphore.c:103-290 | No run abandons the set if and only if no opener can create it. |
| `NamedSemaphoreDeletion.StalledStays` | posix1b/semaphore.c:255-258 | A `sem_unlink` that waits for the flag of an uninitialised set waits until its own process exits. |
| `NamedSemaphoreDeletion.NeverStallsIff` | posix1b/semaphore.c:136-258 | No run gets there if and only if only the unlinking process can create the set. |
| `NamedSemaphoreOverlap.OpeningAcrossUnlinkInitialisesTwice` | posix1b/semaphore.c:140-258 | Any two openers that can create the set, one of them without O_EXCL, can both add their initial value to it if the name is unlinked between. |
| `NamedSemaphoreOverlap.InitialisesOnceIff` | posix1b/semaphore.c:103-267 | With openings in flight across the unlinking, no run adds two initial values if and only if there are no two such openers. |
| `NamedSemaphoreCalls.CloseOutcome` | posix1b/semaphore.c:269-290 | An undisturbed `sem_close` takes one access off and removes the set exactly if it was the last of an unlinked one. |
| `NamedSemaphoreCalls.Kernel.Semop` | posix1b/semaphore.c:167 | `semop` in place: the whole array or nothing. |
| `NamedSemaphoreCalls.Kernel.OpenStart` | posix1b/semaphore.c:103-139 | The start of `sem_open` up to `semget`, in place, is that step of the model. |
| `NamedSemaphoreCalls.Kernel.OpenTurn` | posix1b/semaphore.c:140-167 | One turn of the loop, in place, is that step of the model. |
| `NamedSemaphoreCalls.Kernel.SemOpen` | posix1b/semaphore.c:103-177 | Undisturbed, `sem_open` takes at most two turns; it fails exactly when its arguments do not allow it, sleeps exactly without O_CREAT on an uninitialised set, and adds its initial value exactly when nobody has. |
| `NamedSemaphoreCalls.Kernel.SemClose` | posix1b/semaphore.c:269-290 | Undisturbed, `sem_close` closes the handle, never sleeps, and leaves the set as `CloseOutcome` says. |
| `NamedSemaphoreCalls.Kernel.UnlinkStep` | posix1b/semaphore.c:242-267 | One system call of `sem_unlink`, in place, is that step of the model. |
| `NamedSemaphoreCalls.Kernel.SemPost` | posix1b/semaphore.c:208-212 | One up on the value, if the set is there; otherwise an error. |
| `NamedSemaphoreCalls.Kernel.SemWait` | posix1b/semaphore.c:229-233 | One down from a positive value, if the set is there; otherwise an error. |
| `NamedSemaphoreCalls.Kernel.SemTryWait` | posix1b/semaphore.c:235-239 | One down if the value is positive, and otherwise an error and no change. |
| `MessageQueue.Lowest` | posix1b/mqueue.c:234-246 | `msgrcv` with a negative type takes the first packet of the lowest type. |
| `MessageQueue.LowestIsOldestHighest` | posix1b/mqueue.c:234-246 | That packet is the oldest message of the highest priority, and taking it is taking that message from the priority queue. |
| `MessageQueue.SendingEnqueues` | posix1b/mqueue.c:208-231 | Queueing the packet is appending the message, priority intact, for priorities below `MQ_PRIO_MAX`. |
| `MessageQueue.BytesAddUp` | posix1b/mqueue.c:222-225 | The bytes in a queue, which `msgsnd` holds against the limit, add up over its parts and are the length of the text for one message. |
| `MessageQueue.TakingIsFifo` | posix1b/mqueue.c:234-246 | For every priority, receiving takes the first message of that priority or none. |
| `MessageQueue.Conservation` | posix1b/mqueue.c:208-246 | After any sequence of sends and receives, for every priority, what was sent is what was received followed by what is queued, in order. |
| `MessageQueue.DrainIsStableSort` | posix1b/mqueue.c:208-246 | Draining any queue yields its stable sort by descending priority. |
| `MessageQueue.StableSortIsUnique` | posix1b/mqueue.c:208-246 | There is only one such sequence, so the specification leaves no choice. |
| `MessageQueue.SendThenDrain` | posix1b/mqueue.c:208-246 | A sequence is what draining returns if and only if it is the stable sort of what was sent. |
| `MessageQueueCalls.ZeroMeansSentIff` | posix1b/mqueue.c:213-230 | For one call, exactly when a reported 0 means that the message was queued: all the ways in which `msgsnd` fails after the checks. |
| `MessageQueueCalls.ArrivedIsConserved` | posix1b/mqueue.c:208-246 | After any history of calls, for every priority, what was queued is what was received, then what was removed with the queue, then what is still there, in order. |
| `MessageQueueCalls.ReportsAreTrueIff` | posix1b/mqueue.c:208-246 | After any history of calls through any descriptors, the same holds of what was reported as sent if and only if no call lost its message. |
| `MessageQueueCalls.SharedQueue.Send` | posix1b/mqueue.c:208-231 | `mq_send` in place: EINVAL for a priority above 256, else E2BIG for a text above 16384 bytes, else no error; it sleeps exactly for a message that `msgsnd` accepts, on a writable queue that is there and has no room, if the call waits and is not interrupted; the queue after it; and the one signal that answers a pending registration. |
| `MessageQueueCalls.SharedQueue.Receive` | posix1b/mqueue.c:234-246 | `mq_receive` in place is the receive of the history: the oldest message of the highest priority, or the error for a removed, unreadable or empty queue or a short buffer, with the queue untouched. |
| `MessageQueueCalls.SharedQueue.Reopen` | posix1b/mqueue.c:127-134 | Another `mq_open` clears the shared request; a registration it wipes is counted. |
| `MessageQueueCalls.SharedQueue.Notify` | posix1b/mqueue.c:184-204 | One registration at a time; every registration is pending, withdrawn, wiped by another `mq_open` or answered by exactly one signal. |
| `TimeArithmetic.AddTime` | posix1b/posix_time.c:433-441 | Adds total microseconds and keeps usec within 0..1000000. |
| `TimeArithmetic.SubtractTime` | posix1b/posix_time.c:443-451 | Subtracts total microseconds and keeps usec within 0..1000000; normal times give a normal time. |
| `TimeArithmetic.CompareOrdersTotals` | posix1b/posix_time.c:426-431 | Different totals are ordered correctly. |
| `TimeArithmetic.CompareIsExactIff` | posix1b/posix_time.c:426-431 | The sign is that of the difference of totals if and only if the two are not the two writings of one whole second. |
| `TimeArithmetic.NoDrift` | posix1b/posix_time.c:295-296 | After n expiries the alarm totals arming time plus first value plus n intervals. |
| `TimerPass.DueMeansReached` | posix1b/posix_time.c:134-138 | A timer is due if and only if its alarm lies no later than now plus half the resolution, except the whole second that this sum writes as a full million microseconds. |
| `TimerPass.ExpiredIsExact` | posix1b/posix_time.c:137-175 | Exactly the due timers are notified, each once. |
| `TimerPass.TimeoutIsMinimum` | posix1b/posix_time.c:137-171 | The armed timeout is the least time a pending timer has to wait (the resolution if overdue) and zero exactly when none is pending. |
| `TimerPass.KeptIsEverySecond` | posix1b/posix_time.c:137-158 | Exactly which timers the walk leaves in the list. |
| `TimerPass.KeepsPendingIff` | posix1b/posix_time.c:137-158 | The list keeps exactly the timers that go on if and only if no two neighbours are one-shots that fall due together. |
| `TimerPass.RearmIsMinimum` | posix1b/posix_time.c:264-281 | `timer_settime` arms the least positive wait among the new value and the alarms still to come, zero exactly when there is none; a value in the past is armed as it is. |
| `Timers.ToTimeval` | posix1b/posix_time.c:215-219 | A proper nanosecond value loses less than a microsecond and comes out in normal form. |
| `Timers.FirstValue` | posix1b/posix_time.c:218-225 | The first alarm comes at the time given (absolute) or that long after now (relative). |
| `Timers.FirstValueIsZeroIff` | posix1b/posix_time.c:218-225 | For proper nanoseconds and a normal clock the value is normal, and zero if and only if a relative value is below a microsecond or an absolute one is now. |
| `Timers.RelinkedIsList` | posix1b/posix_time.c:137-158 | The links after the walk are a proper list of the timers that stay, in order. |
| `Timers.TwiceLinkedIsNoList` | posix1b/posix_time.c:298-302 | Linking a timer in front of a list it is already in leaves no list at all. |
| `Timers.Table.Walk` | posix1b/posix_time.c:137-171 | The first loop of the handler, in place: links, alarms, running flags, timeout and the chain of expired timers are exactly as specified for a walk over the whole list. |
| `Timers.Table.NotifyAll` | posix1b/posix_time.c:172-175 | The second loop notifies the whole chain, in order. |
| `Timers.Table.HandlerPass` | posix1b/posix_time.c:126-179 | One pass: the due timers notified, periodic alarms one interval on and on schedule, one-shots no longer running, the list well formed, the interval timer armed with the least wait; on the rows of the list it is the pass of the history. |
| `Timers.Table.Handle` | posix1b/posix_time.c:88-181 | The handler in either mode keeps a sound table sound (at most one timer in single mode, alarms and intervals in range, listed timers on schedule, running timers listed) and is the pass of the history. |
| `Timers.Table.RunningIffListed` | posix1b/posix_time.c:137-158 | After a pass over running timers, running means listed for every timer if and only if no two neighbours were one-shots that fell due together. |
| `Timers.Table.SinglePass` | posix1b/posix_time.c:96-124 | With a single timer the alarm moves on by one interval, on schedule, and the timer is notified and stays listed. |
| `Timers.Table.ComputeTimeout` | posix1b/posix_time.c:264-281 | The loop over the other timers computes the rearming value. |
| `Timers.Table.Find` | posix1b/posix_time.c:307-315 | The search finds the link to the timer if and only if it is in the list. |
| `Timers.Table.Unlink` | posix1b/posix_time.c:307-316 | The timer is out of the list and the rest keeps its order. |
| `Timers.Table.Link` | posix1b/posix_time.c:298-302 | The timer is in front of a proper list if and only if it was not in the list before. |
| `Timers.Table.Arm` | posix1b/posix_time.c:227-282 | Alone in the list a timer gets the interval timer with its own period; otherwise the nearest alarm is armed once. |
| `Timers.Table.SetTime` | posix1b/posix_time.c:183-323 | All outcomes of `timer_settime` outside the handler: errors, the timer's fields, the list, what is armed, and exactly when the links stop being a list. For proper arguments, in terms of these alone, the timer runs afterwards, listed, if and only if the value does not ask for now; a running one that does is unlisted. |
| `Timers.Table.SetSoundly` | posix1b/posix_time.c:183-323 | With proper nanoseconds it keeps a sound table sound and is the setting of the history, exactly if the history allows that setting; the timer runs afterwards if and only if the value does not ask for now. |
| `TimerHistory.EveryHistoryIsSound` | posix1b/posix_time.c:126-302 | After every history of proper calls alarms and intervals are in range, no timer is listed twice and single mode has at most one. |
| `TimerHistory.AssertionHoldsIff` | posix1b/posix_time.c:96-98 | In every history the assertion of the handler in single mode would hold of the next pass, exactly unless the last call set a timer to zero while none was listed. |
| `TimerHistory.PeriodicStaysOnSchedule` | posix1b/posix_time.c:123-140 | Through every history, in both modes, a periodic timer that is not set again stays listed and moves on by exactly one interval for each notification. |
| `TimerHistory.NoDriftInHistory` | posix1b/posix_time.c:123-296 | From a setting on, n notifications put the alarm at the time of setting plus the first value plus n intervals. |
| `TimerHistory.PassTakesOutIff` | posix1b/posix_time.c:96-158 | A pass that notifies a one-shot leaves it in the list, unchanged, in single mode or at an odd place in a row of such one-shots, and takes it out otherwise. |
| `TimerHistory.NotifiedAgainIff` | posix1b/posix_time.c:96-175 | A one-shot notified by a pass and not set again is notified by a later pass of any history that has one if and only if the first pass left it in the list. |
| `TimerScenarios.ListIsLost` | posix1b/posix_time.c:155-302 | A history of calls after which the links form no list. |
| `TimerScenarios.FiresTwice` | posix1b/posix_time.c:96-175 | A history of calls in which a one-shot is notified twice. |

## Left out

- `conformance/`: header checks and single probes of an operating system that is not in the repository.
- `functional/semaphores/sem_conpro.c` and `functional/semaphores/sem_lock.c`, the other drivers in `functional/mqueues`, `stress/mqueues` and `posix1b/test*.c`: easier instances of what is proved.
- The hash table of semaphore identifiers in `posix1b/semaphore.c`, `sem_init`, `sem_destroy` and `sem_getvalue`: value operations work on the set directly.
- The limit SEMVMX on semaphore values, `EINTR`, and a new set under a name that was unlinked: one set is followed for its whole life.
- NamedSemaphoreCalls.Kernel.SemOpen: is the call that nobody interferes with, while the name stands for the set; every interleaving is in the step model (`NamedSemaphoreRuns.EveryRun`).
- NamedSemaphoreCalls.Kernel.SemClose: likewise the call that nobody interferes with.
- One `sem_unlink` call is modelled. Of two that both pass `semget` before either unlinks the name, the second sleeps at its `semop` until the set is removed, because the first has dropped the flag.
- `fork` inheriting handles: every handle belongs to the process that opened it.
- `mq_open`, `mq_close`, `mq_unlink`, `mq_getattr`, `mq_setattr`, `posix_mman.c` and the clock wrappers: plumbing with one-branch behaviour.
- A message call that blocks is the outcome `Sleeps`, or an error if it is interrupted; one that is woken up otherwise is made again.
- Timers.Table.SetTime: leaves out the `old` results and the branch taken inside the handler.
- TimerHistory.NotifiedAgainIff: a one-shot whose alarm was written with more than 1000000 microseconds is not covered; no proper call makes one.
- `timer_create`'s argument checks, `timer_delete` and `timer_gettime`.
- Callbacks that re-enter the timer code, the branch of `timer_settime` inside the handler, signal delivery and `sigaction` bookkeeping.
- Timers.Table.SinglePass: does not model the correction of the interval (lines 99-122 of `posix1b/posix_time.c`), which depends on kernel timing and does not touch `next_alarm`.
- TimerPass.TimeoutIsMinimum: is stated for alarms with usec in 0..1000000 and intervals and clock in normal form; `TimerHistory.EveryHistoryIsSound` shows that every history of calls with proper nanoseconds stays there, but `timer_settime` does not reject others.
- TimerPass.RearmIsMinimum: is stated for alarms, intervals and first values in the same ranges; that `setitimer` refuses a value in the past is not modelled.
- MessageQueueCalls.SharedQueue.Notify: process identifiers are not 0, as `getpid` guarantees.
- `struct timeval` updates in place are value assignments; overflow of `time_t`, `int` sizes and wrap-around of counters are not modelled.
- Printing and the `print` semaphore, sleeps, thread creation and join failures, and the `-1` exits of library calls that succeed in the model.
- `t0.c` and `stress/threads/helper.c`: process launching and timeouts.
