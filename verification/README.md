# nanOS in Dafny

nanOS is a small x86-64 teaching kernel with user programs on top of it. This project models
the parts of it whose correctness no single function establishes, and proves what they promise.

**The concurrency kernel.** System calls enter through interrupt gates, so a call runs without
preemption up to its `yield_process`; user code can be interrupted between any two calls. Hence a
protocol is a step relation whose steps are kernel calls (up to the yield) or stretches of user
code up to the next write of shared data, and a property is proved of every state of every run.

- `Sync.dfy`: mutex, condition and queue values, shared by all protocols.
- `Queue.dfy`, `Processes.dfy`: the linked queue, process states, mutexes and conditions as code
  on the heap, proved against `Sync`.
- `MutexToken.dfy`: one mutex as a token, over all runs.
- `Scheduler.dfy`, `Ring.dfy`, `Fairness.dfy`: the ring of nodes, unlinked in place while it is
  walked; its meaning as a sequence; bounded waiting and strict round robin over all runs.
- `Fifo.dfy`, `FifoStream.dfy`: the circular buffer and the reader queue; a FIFO as a byte stream.
- `Timer.dfy`, `SleepDeadlines.dfy`: the sleep list; its meaning as absolute deadlines.
- `KernelWaits.dfy`: mutexes, conditions, FIFOs and the timer together: who is blocked, and where.
- `KernelCalls.dfy`: what each kernel call does to the processes and to what they wait for.

**Three clients.**

- `Philosophers.dfy` (the steps and their invariant), `PhilosopherSteps.dfy` (every step keeps
  it), `PhilosopherSafety.dfy` (safety of every run), `PhilosopherProgress.dfy` (no lost wakeups,
  exactly when an add makes the table forget a philosopher, and exactly when it deadlocks),
  `PhilosopherTable.dfy` (the functions of philo.c as code, equal to the uninterrupted steps),
  `PhilosopherDeadlock.dfy` (a run of whole calls that ends in a deadlock).
- `TokenBuffer.dfy`: the producer and consumer that pass tokens through two FIFOs.
- `BoundedBuffer.dfy`: the producer and consumer on one mutex and one condition.

**The BMFS file system.** `Bmfs.dfy` is the extent allocator, `BmfsFiles.dfy` the directory as a
map from names to contents, `BmfsFailures.dfy` has directories on which `create` loses files,
`BmfsDisk.dfy` is the utility's code on arrays.

**Algorithms.** `Line.dfy` (Bresenham), `Digits.dfy` (itoa and atoi), `ModulePack.dfy` (module
packer and loader), `Pages.dfy` (page allocator and the pages a process records). `Octets.dfy`,
`Arith.dfy` and `Sequences.dfy` hold the byte type with memcpy, C's division, and a few facts on
sequences.

A class has the fields of the C structure it models; its methods are proved against functions on
values, and the theorems are about those functions. `dafny verify dfyconfig.toml` checks the
whole project.

Where the code does not do what its design promises, the code is kept, a lemma gives an input on
which it fails, and another says exactly when it does not fail:

- The philosophers can deadlock, because `add_philosopher` re-tests nobody
  (nanOS/Userland/SampleCodeModule/philo.c:139-166): `AddOrphans` and `AddDeadlocks` are runs;
  `NobodyForgottenIff` and `AddKeepsHungry` say which adds are harmless, `DeadlockIff` what every
  deadlock looks like.
- `create` looks behind deleted records (nanOS/Bootloader/BMFS/bmfs.c:671-682): `LuredScan`,
  `CreateFirstFit`. Without a 0x00 record it does not count, and then may cut the directory off
  (bmfs.c:634-704): `FullScanWrong` and `FullDirectoryLoses`, `CreateUnmarked` and `CreateAdds`.
  Nobody looks at the name (bmfs.c:146-177, 696), and an empty one ends the directory at the first
  free record: `EmptyNameLoses`, `MarkerKeeps`. `RunRefines` has the exact condition for all of
  them. On files of no blocks the difference wraps around: `EmptyFileScan`, `ScanExact`; main asks
  for at least one MiB (bmfs.c:157, 171), so such files do not come from `create`.
- Page 0 is handed out early once it has been stored while others were free
  (nanOS/Kernel/memoryAllocator.c:31-51): `ZeroBeforeOne`, `ZeroLastIff`.
- More than 256 tokens fill a FIFO
  (nanOS/Userland/SampleCodeModule/producerConsumer.c:17-54): `TooManyTokens`, `FitsIff`.
- malloc hands out one page whatever the size (nanOS/Kernel/systemCalls.c:217-221), and the shell
  accepts any size from 1 (nanOS/Userland/SampleCodeModule/commands.c:433-446): with more than 1024
  ints the producer writes behind the page: `LeavesPage`, `PageSafeIff`. `SizeZeroSleeps` is why the
  shell refuses 0.
- The smallest int has no text that atoi reads back (nanOS/Kernel/lib.c:56-115): `NumberOfText`.
- Modules of 2^32 bytes and more do not survive the packer
  (nanOS/Toolchain/ModulePacker/main.c:101-106): `ImageRoundTrip`.

## Model

| member | source | states |
|---|---|---|
| PhilosopherSafety.NeighboursNeverEat | nanOS/Userland/SampleCodeModule/philo.c:139-289 | main result: in every state of every run, with philosophers added at index N and removed at index N-1 at any time, no philosopher eats beside a neighbour that eats |
| PhilosopherSafety.PrivateMutexIsSemaphore | nanOS/Userland/SampleCodeModule/philo.c:255-289 | main result: the private mutex of a philosopher is free exactly between the grant of the forks and the philosopher's own lock, and whoever is past take_forks is EATING, whether the grant came before or after it blocked |
| PhilosopherSafety.CriticalExclusive | nanOS/Userland/SampleCodeModule/philo.c:122-273 | main result: at most one process is inside a section of critical_m, pauses included, and then it is locked |
| PhilosopherSafety.PauseFreezes | nanOS/Userland/SampleCodeModule/philo.c:122-133 | main result: in every run, from a pause to its end no philosopher's state changes and the ring neither grows nor shrinks |
| PhilosopherSafety.PauseAndResume | nanOS/Userland/SampleCodeModule/philo.c:103-133 | with critical_m free the pause key takes it and leaves the table alone, and the next key gives back exactly the state before |
| PhilosopherSafety.OnlyHolderChanges | nanOS/Userland/SampleCodeModule/philo.c:230-289 | whoever does not hold critical_m changes nothing of the table but a private mutex, and nobody else's program point |
| PhilosopherSafety.RunOk | nanOS/Userland/SampleCodeModule/philo.c:139-289 | the invariant (queues, private mutexes, conditions, program points, no eating neighbours) holds in every state of every run |
| PhilosopherSafety.StepOk | nanOS/Userland/SampleCodeModule/philo.c:139-289 | every single step of every process keeps the invariant |
| PhilosopherSteps.StartOk | nanOS/Userland/SampleCodeModule/philo.c:45-70 | the invariant holds before the first command |
| Philosophers.RingMacros | nanOS/Userland/SampleCodeModule/include/philo.h:4-5 | the neighbour functions are the remainders that the macros LEFT and RIGHT take inside the ring |
| PhilosopherSteps.EatOk | nanOS/Userland/SampleCodeModule/philo.c:282-289 | granting the forks under the condition of test keeps the invariant, for the caller and for a neighbour |
| PhilosopherSteps.TakeTestOk | nanOS/Userland/SampleCodeModule/philo.c:255-258 | test in take_forks keeps the invariant |
| PhilosopherSteps.PutTestOk | nanOS/Userland/SampleCodeModule/philo.c:267-271 | test for either neighbour in put_forks keeps the invariant |
| PhilosopherSteps.GrantEffect | nanOS/Userland/SampleCodeModule/philo.c:288-288 | unlocking the private mutex wakes its one waiter or leaves the mutex free, and changes nothing else |
| PhilosopherSteps.ExitOk | nanOS/Userland/SampleCodeModule/philo.c:251-251 | giving critical_m back keeps the invariant wherever the caller goes on to a point that fits its state |
| PhilosopherSteps.DieLeaveOk | nanOS/Userland/SampleCodeModule/philo.c:241-244 | a dying philosopher whose two neighbours are not both EATING can leave although they become neighbours of each other |
| PhilosopherSteps.SafeShrunk | nanOS/Userland/SampleCodeModule/philo.c:238-243 | taking the last philosopher, DYING and without two EATING neighbours, off the ring makes no two EATING philosophers neighbours |
| PhilosopherSteps.DieSleepOk | nanOS/Userland/SampleCodeModule/philo.c:238-241 | waiting in should_die keeps the invariant |
| PhilosopherSteps.AddCheckOk | nanOS/Userland/SampleCodeModule/philo.c:144-152 | enlarging the ring by one philosopher, still not started, keeps the invariant |
| PhilosopherSteps.AddLockOk | nanOS/Userland/SampleCodeModule/philo.c:153-160 | locking the new mutex, which is free, keeps the invariant |
| PhilosopherSteps.RemoveLoopOk | nanOS/Userland/SampleCodeModule/philo.c:171-177 | waiting for the marked philosopher to leave, and seeing that it has left, keep the invariant |
| PhilosopherProgress.SleepersHaveAReason | nanOS/Userland/SampleCodeModule/philo.c:168-253 | main result, all runs: while critical_m is free, a philosopher asleep in should_die has two EATING neighbours, and main asleep in remove_philosopher waits for a marked philosopher still on the ring |
| PhilosopherProgress.HungryHaveEatingNeighbours | nanOS/Userland/SampleCodeModule/philo.c:139-289 | main result: in every run whose adds meet the guard of AddKeepsHungry, while critical_m is free every HUNGRY philosopher has an EATING neighbour |
| PhilosopherProgress.SomebodyCanMove | nanOS/Userland/SampleCodeModule/philo.c:139-289 | main result: in every run whose adds meet that guard, while critical_m is free some philosopher of a table that is not empty is not blocked |
| PhilosopherProgress.CarefulNeverStuck | nanOS/Userland/SampleCodeModule/philo.c:71-289 | main result: in every state of such a run some process has a step left |
| PhilosopherProgress.AddKeepsHungry | nanOS/Userland/SampleCodeModule/philo.c:144-164 | add_philosopher, which re-tests nobody, leaves no HUNGRY philosopher without an EATING neighbour or a test on its way if and only if neither end of the ring is HUNGRY with only the other end to wait for |
| PhilosopherProgress.RunContinues | nanOS/Userland/SampleCodeModule/philo.c:45-70 | every run from an empty table is one of those that the next three results speak of; they may also start later, wherever nobody is forgotten |
| PhilosopherProgress.NobodyForgottenIff | nanOS/Userland/SampleCodeModule/philo.c:139-289 | main result: in every state of a run every HUNGRY philosopher has an EATING neighbour or a test on its way, if and only if every add of the run meets that guard |
| PhilosopherProgress.OnlyAddGrows | nanOS/Userland/SampleCodeModule/philo.c:144-147 | a step enlarges the ring exactly when it is the one by which add_philosopher does |
| PhilosopherProgress.NobodyMovesIff | nanOS/Userland/SampleCodeModule/philo.c:139-289 | main result, all runs: while critical_m is free, nobody at the table can go on if and only if everybody there is HUNGRY and queued on its own mutex |
| PhilosopherProgress.DeadlockIff | nanOS/Userland/SampleCodeModule/philo.c:71-289 | main result, all runs: no process has a step left, whatever key is pressed, if and only if main sleeps in remove_philosopher, critical_m is free and every philosopher of the ring is HUNGRY and queued on its own mutex |
| PhilosopherProgress.StepKept | nanOS/Userland/SampleCodeModule/philo.c:139-289 | each step keeps both progress invariants, growing the ring excepted for the first |
| PhilosopherProgress.TestKept | nanOS/Userland/SampleCodeModule/philo.c:282-289 | a test leaves nobody HUNGRY behind without an EATING neighbour |
| PhilosopherProgress.PutSetKept | nanOS/Userland/SampleCodeModule/philo.c:266-271 | a philosopher that stops eating owes its neighbours a test, and they get it |
| PhilosopherProgress.LeaveKept | nanOS/Userland/SampleCodeModule/philo.c:241-249 | a philosopher that leaves takes nobody's EATING neighbour away |
| PhilosopherProgress.DyingRun | nanOS/Userland/SampleCodeModule/philo.c:139-289 | in every run a sleeping dying philosopher has two eating neighbours or a signal on its way |
| PhilosopherDeadlock.AddOrphans | nanOS/Userland/SampleCodeModule/philo.c:139-164 | a reachable state in which one add leaves a HUNGRY philosopher with no EATING neighbour and no test on its way |
| PhilosopherDeadlock.AddDeadlocks | nanOS/Userland/SampleCodeModule/philo.c:139-289 | main result: from an empty table four adds, one meal and four removes lead to a deadlock: one philosopher is left, HUNGRY and queued on its own mutex, main waits for it to die, and no process has a step left |
| PhilosopherDeadlock.Put | nanOS/Userland/SampleCodeModule/philo.c:263-273 | put_forks of a philosopher between two that are not HUNGRY and do not wait to die tests and wakes nobody |
| PhilosopherDeadlock.Leave | nanOS/Userland/SampleCodeModule/philo.c:168-253 | remove_philosopher and the should_die that it waits for take the last philosopher off the ring and test nobody |
| PhilosopherTable.Table.Test | nanOS/Userland/SampleCodeModule/philo.c:282-289 | the code of test computes the specification on the whole state |
| PhilosopherTable.Table.TakeForks | nanOS/Userland/SampleCodeModule/philo.c:255-259 | take_forks as code equals the uninterrupted run of its holder's steps up to mutex_unlock(critical_m) |
| PhilosopherTable.Table.PutForks | nanOS/Userland/SampleCodeModule/philo.c:263-273 | the same for put_forks |
| PhilosopherTable.Table.ShouldDie | nanOS/Userland/SampleCodeModule/philo.c:230-253 | the same for should_die, from its start or from its wait loop |
| PhilosopherTable.Table.AddPhilosopher | nanOS/Userland/SampleCodeModule/philo.c:139-166 | the same for add_philosopher |
| PhilosopherTable.Table.RemovePhilosopher | nanOS/Userland/SampleCodeModule/philo.c:168-180 | the same for remove_philosopher, from its start or from its wait loop |
| PhilosopherTable.Table.UnlockCritical | nanOS/Userland/SampleCodeModule/philo.c:258-258 | giving critical_m back hands it to the first waiter |
| PhilosopherTable.TakeRefines | nanOS/Userland/SampleCodeModule/philo.c:255-259 | the steps of take_forks, run without interruption, are set HUNGRY, test, unlock |
| PhilosopherTable.PutRefines | nanOS/Userland/SampleCodeModule/philo.c:263-273 | the steps of put_forks are set THINKING, then test and signal left, then right, unlock |
| PhilosopherTable.DieRefines | nanOS/Userland/SampleCodeModule/philo.c:230-253 | the steps of should_die are its code |
| PhilosopherTable.AddRefines | nanOS/Userland/SampleCodeModule/philo.c:139-166 | the steps of add_philosopher are its code; the new mutex is locked without blocking |
| PhilosopherTable.RemoveRefines | nanOS/Userland/SampleCodeModule/philo.c:168-180 | the steps of remove_philosopher are its code |
| Scheduler.Scheduler.constructor | nanOS/Kernel/processManager.c:84-97 | the first process makes a ring of one node |
| Scheduler.Scheduler.AddProcess | nanOS/Kernel/processManager.c:84-104 | the new node comes right after the current one; the ring stays one cycle, prev and current stay |
| Scheduler.Scheduler.SetNextCurrent | nanOS/Kernel/processManager.c:136-150 | the loop ends; it puts whoever stands before the first runnable process at the end of the round, or out of ring and table if marked DELETE, and nothing else |
| Scheduler.Scheduler.StepOver | nanOS/Kernel/processManager.c:145-148 | a turn over a blocked process rotates the cycle and keeps prev behind current |
| Scheduler.Scheduler.StepOut | nanOS/Kernel/processManager.c:139-143 | a turn over a DELETE process unlinks exactly its node and destroys exactly that process |
| Scheduler.Scheduler.WalkOne | nanOS/Kernel/processManager.c:136-150 | every turn of the loop is the next state of the walk; init, still ahead, keeps the ring from becoming empty |
| Scheduler.Scheduler.NextProcess | nanOS/Kernel/processManager.c:44-68 | a tick takes one quantum; with none left and the superlock free the next runnable process becomes current, the old one has a fresh quantum and nobody else's quantum changes; otherwise nothing moves |
| Scheduler.Scheduler.EndProcess | nanOS/Kernel/processManager.c:113-134 | the current process leaves ring and table, the next runnable one is current and is the only one with a quantum more |
| Scheduler.Scheduler.YieldProcess | nanOS/Kernel/processManager.c:106-110 | a yield always switches when the superlock is free, and the next node of the ring gets the quantum |
| Scheduler.Scheduler.Unlocked | nanOS/Kernel/asm/test_lock.asm:3-6 | the atomic exchange leaves the word locked and says what it was |
| Scheduler.ChosenOk | nanOS/Kernel/processManager.c:136-150 | the process chosen is neither blocked nor marked DELETE, init stays in, and ring and table still hold the same processes |
| Scheduler.SwitchedOk | nanOS/Kernel/processManager.c:60-63 | the same after a context switch |
| Scheduler.EndedOk | nanOS/Kernel/processManager.c:119-125 | the same after the current process has ended, which is then in neither |
| Scheduler.WalkAt | nanOS/Kernel/processManager.c:137-137 | after i turns the loop stands on the i-th process of the ring, and it stops exactly at the first runnable one |
| Scheduler.WalkTurn | nanOS/Kernel/processManager.c:137-150 | a turn that is taken has not reached the end, and another node is left |
| Ring.First | nanOS/Kernel/processManager.c:137-137 | the first runnable process is runnable and nobody before it is |
| Ring.Unmarked | nanOS/Kernel/processManager.c:140-144 | exactly the processes not marked DELETE remain |
| Fairness.BoundedWaiting | nanOS/Kernel/processManager.c:44-150 | main result: in every run a process that stays READY and is still not current has seen fewer switches than its ring distance at the start plus the processes inserted meanwhile |
| Fairness.RoundRobin | nanOS/Kernel/processManager.c:44-150 | main result: in every run the members of any set of processes that stay READY take turns in ring order, each once per round, whatever else is blocked, woken, killed, inserted or ends |
| Fairness.SwitchDistance | nanOS/Kernel/processManager.c:60-63 | a switch brings every waiting READY process strictly nearer |
| Fairness.EndDistance | nanOS/Kernel/processManager.c:119-125 | so does the end of the current process |
| Fairness.InsertDistance | nanOS/Kernel/processManager.c:99-101 | an insertion moves it one place back |
| Fairness.StepOrder | nanOS/Kernel/processManager.c:44-150 | a switch brings the next of the set to the front, every other event leaves their order alone |
| Fairness.SkipDistinct | nanOS/Kernel/processManager.c:136-150 | skipping never duplicates a process in the ring |
| Processes.ProcessTable.BlockProcess | nanOS/Kernel/process.c:291-294 | a process becomes BLOCKED unless it is marked DELETE |
| Processes.ProcessTable.UnblockProcess | nanOS/Kernel/process.c:296-299 | a process becomes READY unless it is marked DELETE |
| Processes.ProcessTable.KillProcess | nanOS/Kernel/process.c:255-260 | any process but init and the shell is marked DELETE |
| Processes.KernelMutex.Lock | nanOS/Kernel/kernelMutex.c:99-127 | the caller takes a free mutex and stays as it is, or is queued last and BLOCKED (unless marked DELETE) and nobody else changes |
| Processes.KernelMutex.DequeueLiving | nanOS/Kernel/kernelMutex.c:137-140 | the loop drops the DELETE processes at the head of the queue and no other |
| Processes.KernelMutex.Unlock | nanOS/Kernel/kernelMutex.c:129-153 | the mutex goes to the first queued process not marked DELETE, which becomes READY and is the only one to change, or becomes free and nobody changes |
| Processes.Condition.Wait | nanOS/Kernel/condVariable.c:74-81 | the mutex is handed over, its new holder is READY, the caller is queued last and BLOCKED, and nobody else changes |
| Processes.Condition.Signal | nanOS/Kernel/condVariable.c:89-99 | exactly the first waiter is dequeued; it becomes READY unless marked DELETE, and nobody else changes |
| Processes.Condition.Broadcast | nanOS/Kernel/condVariable.c:101-112 | the queue is empty; all who were in it become READY unless marked DELETE, and nobody else changes |
| Queue.LinkedQueue.Enqueue | nanOS/Kernel/queueADT.c:37-52 | the linked list of nodes gets one element at its end |
| Queue.LinkedQueue.Dequeue | nanOS/Kernel/queueADT.c:60-73 | the linked list loses its first element, which is returned |
| Queue.LinkedQueue.Peek | nanOS/Kernel/queueADT.c:54-58 | the first element is returned and stays |
| Queue.LinkedQueue.IsEmpty | nanOS/Kernel/queueADT.c:30-35 | true exactly for the empty contents |
| MutexToken.TokenConserved | nanOS/Kernel/kernelMutex.c:99-153 | main result: in every run of lock, unlock and kill a free mutex has no waiter, it is locked exactly while held, and callers leave in the order they came, each with the mutex unless marked DELETE |
| MutexToken.HolderKeeps | nanOS/Kernel/kernelMutex.c:99-153 | main result: whoever was given the mutex keeps it until it unlocks, whatever the others do |
| MutexToken.NoOvertaking | nanOS/Kernel/kernelMutex.c:129-153 | main result: an unlock with a live waiter leaves no state in which the mutex is free, so a newcomer is queued behind all earlier waiters |
| MutexToken.UnlockHandsOver | nanOS/Kernel/kernelMutex.c:135-147 | the new holder is in the queue, not marked DELETE, and everybody before it is |
| MutexToken.StepOk | nanOS/Kernel/kernelMutex.c:99-153 | each event keeps the token invariant |
| KernelWaits.BlockedIffQueued | nanOS/Kernel/kernelMutex.c:99-153 | main result: in every run over all mutexes, conditions, FIFOs and the timer, with kills, processes that come and go, and waits for the keyboard and the foreground, a process is BLOCKED exactly when it is in a queue, in one and once, unless it is marked DELETE; whoever is in a queue is BLOCKED and still there, or marked DELETE and perhaps destroyed; and what it waits for has not happened yet |
| KernelWaits.NoStrayWakeup | nanOS/Kernel/process.c:291-299 | main result: whoever a step turns from BLOCKED to READY has left its queue and is in no other |
| KernelWaits.StepOk | nanOS/Kernel/condVariable.c:74-112 | every kernel call, interrupt and kill, every new process and every end of one keeps the agreement of states and queues, and that nobody waits for what has happened |
| KernelWaits.LockOk | nanOS/Kernel/kernelMutex.c:99-127 | mutex_lock keeps it |
| KernelWaits.UnlockOk | nanOS/Kernel/kernelMutex.c:129-153 | mutex_unlock keeps it, and no running process is touched |
| KernelWaits.WaitOk | nanOS/Kernel/condVariable.c:74-87 | cond_wait, which unlocks, queues and blocks, keeps it |
| KernelWaits.SignalOk | nanOS/Kernel/condVariable.c:89-99 | cond_signal keeps it |
| KernelWaits.BroadcastOk | nanOS/Kernel/condVariable.c:101-112 | cond_broadcast keeps it |
| KernelWaits.ReadOk | nanOS/Kernel/fifo.c:161-180 | fifo_read keeps it |
| KernelWaits.WriteOk | nanOS/Kernel/fifo.c:109-150 | fifo_write with its wakeups keeps it |
| KernelWaits.SleepOk | nanOS/Kernel/timer.c:48-66 | sleep keeps it |
| KernelWaits.TickOk | nanOS/Kernel/timer.c:20-46 | timer_handler keeps it |
| KernelWaits.KillOk | nanOS/Kernel/process.c:255-260 | the DELETE mark keeps it: a marked process may stay queued |
| KernelWaits.ExecOk | nanOS/Kernel/process.c:148-174 | a new process is READY and in no queue |
| KernelWaits.EndOk | nanOS/Kernel/processManager.c:113-150 | a process ends that is in no queue, or one marked DELETE is destroyed, which a queue may still hold |
| KernelWaits.TabledOk | nanOS/Kernel/process.c:228-260 | each step keeps every process in the table that is not marked DELETE and has not ended |
| KernelWaits.SetOk | nanOS/Kernel/process.c:312-336 | a process that starts to wait for a key or for the foreground is in no queue |
| KernelWaits.WakeFromOk | nanOS/Kernel/process.c:307-331 | a key or a change of the foreground wakes no process that is in a queue |
| KernelWaits.UnlockQueue | nanOS/Kernel/kernelMutex.c:135-147 | whoever leaves the queue of a mutex is the new holder or marked DELETE |
| KernelCalls.LeaversAreReady | nanOS/Kernel/process.c:291-299 | main result: whoever any step (unlock, signal, broadcast, write, tick, kill, exit) takes out of a queue is READY afterwards, or marked DELETE as before |
| KernelCalls.BystandersKeep | nanOS/Kernel/process.c:291-299 | main result: a call changes no status of a process that is in no queue before and after it |
| KernelCalls.WokenWereQueued | nanOS/Kernel/process.c:296-299 | whoever a call makes READY was in a queue |
| KernelCalls.CallStatus | nanOS/Kernel/process.c:291-299 | a call leaves a status alone or makes it READY or BLOCKED |
| KernelCalls.LockLaw | nanOS/Kernel/kernelMutex.c:99-127 | after mutex_lock a free mutex is locked and the caller goes on, or the caller is its last waiter and BLOCKED; nothing else changes, and nothing at all if it is not open |
| KernelCalls.UnlockLaw | nanOS/Kernel/kernelMutex.c:129-153 | after mutex_unlock the first waiter not marked DELETE is READY, owns the locked mutex, and those behind it stay; or all were marked and it is free; nothing else changes |
| KernelCalls.RelockLaw | nanOS/Kernel/condVariable.c:82-83 | the process comes back from cond_wait with its mutex locked, or is BLOCKED as the last waiter for it; nothing else changes |
| KernelCalls.WaitLaw | nanOS/Kernel/condVariable.c:74-81 | cond_wait gives the mutex up as mutex_unlock does, makes the caller the last waiter, BLOCKED, and records exactly that mutex for the return |
| KernelCalls.SignalLaw | nanOS/Kernel/condVariable.c:89-99 | the first waiter leaves the queue and is READY (unless marked DELETE); without one nothing changes |
| KernelCalls.BroadcastLaw | nanOS/Kernel/condVariable.c:101-112 | all waiters leave the queue and are READY (unless marked DELETE), nobody else changes |
| KernelCalls.ReadLaw | nanOS/Kernel/fifo.c:161-180 | with bytes and no reader before it the caller gets all it asks for or empties the buffer, and goes on; else it is the last reader and BLOCKED |
| KernelCalls.WriteLaw | nanOS/Kernel/fifo.c:109-150 | what fits is appended; the readers at the front get the bytes in order, each all it asks for or all there is, and exactly they are READY |
| KernelCalls.SleepLaw | nanOS/Kernel/timer.c:48-66 | less than 55 ms is no sleep; else the caller waits for k ticks with 55k <= ms < 55(k + 1) and is BLOCKED |
| KernelCalls.TickLaw | nanOS/Kernel/timer.c:20-46 | the deadlines stay, the clock moves by one, and exactly those whose deadline it is are READY (unless marked DELETE) |
| KernelCalls.KillLaw | nanOS/Kernel/process.c:255-260 | the target is marked DELETE unless it is init or the shell, and nothing else changes |
| KernelCalls.KeyLaw | nanOS/Kernel/process.c:307-331 | a key wakes its target only from waiting for a key, the foreground only from waiting for the foreground, and nothing else changes |
| KernelCalls.WaitForKeyLaw | nanOS/Kernel/process.c:307-314 | who waits for a key does not run until one comes for it, and then runs |
| KernelCalls.WaitForForegroundLaw | nanOS/Kernel/process.c:321-336 | the same for the foreground |
| KernelCalls.ExecLaw | nanOS/Kernel/processManager.c:84-104 | a new process runs, and nobody else changes |
| KernelCalls.EndLaw | nanOS/Kernel/processManager.c:113-150 | a process that ends or is destroyed leaves the table for good, and nobody else changes |
| Fifo.CircularBuffer.constructor | nanOS/Kernel/fifo.c:94-102 | a new buffer is empty |
| Fifo.CircularBuffer.Write | nanOS/Kernel/fifo.c:226-245 | with room for at least one byte, the longest prefix that fits is appended, across the end of the array if need be |
| Fifo.CircularBuffer.Read | nanOS/Kernel/fifo.c:247-267 | the oldest bytes come out, as many as asked for or as there are, across the end of the array if need be |
| Fifo.CircularBuffer.CopyIn | nanOS/Kernel/fifo.c:234-243 | both branches of the copy leave the old contents followed by the new bytes |
| Fifo.WriteWindow | nanOS/Kernel/fifo.c:226-245 | either branch extends the window of unread bytes by the source |
| Fifo.ReadCopies | nanOS/Kernel/fifo.c:254-262 | either branch of the read returns the window from current on |
| Fifo.ReadTakes | nanOS/Kernel/fifo.c:176-198 | a read delivers exactly the bytes asked for or empties the buffer, and the rest stays in order |
| Fifo.AcceptedIs | nanOS/Kernel/fifo.c:226-232 | what is accepted is the longest prefix that fits |
| Octets.Memcpy | nanOS/Kernel/lib.c:16-50 | the bytes of the source and no others are replaced |
| Fifo.KernelFifo.Write | nanOS/Kernel/fifo.c:109-132 | fifo_write accepts what fits, serves readers first come first served while there are bytes, and unblocks exactly those |
| Fifo.KernelFifo.Read | nanOS/Kernel/fifo.c:161-198 | a reader is served at once only if nobody waits and there are bytes: it gets the oldest, all it asks for or all there are; else it is queued last and blocked; no or negative bytes change nothing |
| Fifo.KernelFifo.SendToReaders | nanOS/Kernel/fifo.c:144-150 | the loop serves as the specification does |
| Fifo.KernelFifo.ServeFirst | nanOS/Kernel/fifo.c:134-150 | one turn serves the first reader and leaves the rest of the outcome unchanged |
| FifoStream.StreamPreserved | nanOS/Kernel/fifo.c:109-198 | main result: in every run the bytes delivered in order of service, then the buffer, are the accepted bytes of all writes; the readers are answered and still wait in order of arrival; each has exactly the bytes it asked for, or the buffer was empty after it; nobody waits while there are bytes |
| FifoStream.FreshFifoIsStream | nanOS/Kernel/fifo.c:84-102 | the same for a FIFO from its opening on |
| FifoStream.ServeBytes | nanOS/Kernel/fifo.c:144-150 | serving stops only when bytes or readers run out and uses the bytes in order |
| FifoStream.ServeOrder | nanOS/Kernel/fifo.c:144-150 | readers are served in order, each with what it asked for or all there is |
| FifoStream.ServeWhole | nanOS/Kernel/fifo.c:144-150 | every reader served gets all it asks for, but perhaps the last, which empties the buffer |
| FifoStream.StepWhole | nanOS/Kernel/fifo.c:144-198 | the same for every delivery of a read or a write |
| FifoStream.StepOk | nanOS/Kernel/fifo.c:109-198 | each read or write keeps the stream invariant |
| Timer.SleepList.Sleep | nanOS/Kernel/timer.c:48-66 | a sleep shorter than a tick does not block; any other is put at the head of the list with k ticks, 55k <= ms < 55(k + 1), and blocks |
| Timer.SleepList.TimerHandler | nanOS/Kernel/timer.c:20-46 | the loop with decrement and unlink in place leaves the sleepers not yet due with one tick less, in order, and unblocks exactly those due |
| Timer.SleepList.Unlink | nanOS/Kernel/timer.c:29-37 | exactly the node the loop stands on is taken out of the list |
| Timer.SleepList.TickOne | nanOS/Kernel/timer.c:25-45 | one turn ages or wakes one sleeper |
| Timer.ResultStep | nanOS/Kernel/timer.c:25-45 | one turn leaves the final result of the loop unchanged, and all ticks at 1 or more |
| SleepDeadlines.TickRefinesClock | nanOS/Kernel/timer.c:20-46 | main result: seen as absolute deadlines, a tick moves the clock by one, wakes exactly those whose deadline it is and keeps the others and their order |
| SleepDeadlines.WokenExactlyOnTime | nanOS/Kernel/timer.c:20-78 | main result: a process with k ticks to wait is woken by the k-th later tick and no other, whoever else goes to sleep meanwhile |
| SleepDeadlines.SleeperIsWoken | nanOS/Kernel/timer.c:48-78 | the same from the call of sleep on |
| TokenBuffer.TokensConserved | nanOS/Userland/SampleCodeModule/producerConsumer.c:40-70 | main result, up to 256 tokens: tokens plus items plus what the two processes hold stay constant; every write fits whole; the consumer has received a prefix of the items that the producer made up, whole and in order, short of exactly those in the FIFO |
| TokenBuffer.ProducedAre | nanOS/Userland/SampleCodeModule/producerConsumer.c:48-54 | over any run the items logged as written are, in order, the items of the producer's moves |
| TokenBuffer.TooManyTokens | nanOS/Userland/SampleCodeModule/producerConsumer.c:40-54 | for 257 to 1024 tokens there is a run in which the producer comes to write into a full FIFO |
| TokenBuffer.FitsIff | nanOS/Userland/SampleCodeModule/producerConsumer.c:24-70 | main result, every size: no write meets a full FIFO, neither in the set-up nor in any run, if and only if the size is at most 256 |
| TokenBuffer.SomebodyCanMove | nanOS/Userland/SampleCodeModule/producerConsumer.c:40-70 | with at least one token producer and consumer never both block |
| TokenBuffer.SetupOk | nanOS/Userland/SampleCodeModule/producerConsumer.c:24-26 | the set-up loop leaves exactly buf_size tokens and no reader |
| TokenBuffer.StepOk | nanOS/Userland/SampleCodeModule/producerConsumer.c:40-70 | each system call keeps conservation, the reader queues and the byte stream of items |
| TokenBuffer.PutItem | nanOS/Userland/SampleCodeModule/producerConsumer.c:52-52 | a write of an item is never truncated |
| TokenBuffer.TakeItem | nanOS/Userland/SampleCodeModule/producerConsumer.c:65-65 | a read returns one whole item |
| TokenBuffer.FlatPrefix | nanOS/Userland/SampleCodeModule/producerConsumer.c:65-65 | four-byte items can be told apart in the stream |
| BoundedBuffer.BufferSafe | nanOS/Userland/SampleCodeModule/producerConsumer2.c:32-76 | main result, sizes from 1 to the 1024 ints of a page: in every state of every run the index is in bounds, what was put are the producer's items in order, the buffer is the stack of what was put and not taken, the two never wait together, and with the mutex free a waiting producer means a full buffer and a waiting consumer an empty one |
| BoundedBuffer.PageSafeIff | nanOS/Kernel/systemCalls.c:217-221 | main result, every size from 1: no run accesses memory outside the page that malloc hands out for any size, if and only if the size is at most 1024 |
| BoundedBuffer.LeavesPage | nanOS/Userland/SampleCodeModule/producerConsumer2.c:41-46 | above that size the producer alone fills the page and comes to write behind it |
| BoundedBuffer.NoLostWakeup | nanOS/Userland/SampleCodeModule/producerConsumer2.c:49-49 | whoever has acted wakes the other one if it is asleep |
| BoundedBuffer.SomebodyCanMove | nanOS/Userland/SampleCodeModule/producerConsumer2.c:32-76 | no deadlock: unless main pauses them, producer or consumer can move |
| BoundedBuffer.NothingLost | nanOS/Userland/SampleCodeModule/producerConsumer2.c:46-66 | what was put is what was taken and what is still there |
| BoundedBuffer.PutsAreProducts | nanOS/Userland/SampleCodeModule/producerConsumer2.c:46-46 | over any run the puts are, in order, the items that the producer made up |
| BoundedBuffer.ProductsConserved | nanOS/Userland/SampleCodeModule/producerConsumer2.c:46-66 | main result: what the producer made up is what the consumer took and what is still in the buffer |
| BoundedBuffer.SizeZeroSleeps | nanOS/Userland/SampleCodeModule/commands.c:439-442 | why the shell refuses size 0: a run of the two functions with it puts both to sleep for good |
| BoundedBuffer.StepOk | nanOS/Userland/SampleCodeModule/producerConsumer2.c:32-76 | each step, pauses included, keeps the invariant |
| BoundedBuffer.UnlockOk | nanOS/Userland/SampleCodeModule/producerConsumer2.c:165-175 | giving up the mutex hands it to the first waiter only |
| BoundedBuffer.RunOk | nanOS/Userland/SampleCodeModule/producerConsumer2.c:32-76 | the invariant holds in every run |
| Bmfs.ScanFrom | nanOS/Bootloader/BMFS/bmfs.c:660-683 | from any place that the scan of create reaches, its answer is first-fit exactly under the condition of ScanExact |
| Bmfs.ScanExact | nanOS/Bootloader/BMFS/bmfs.c:660-683 | main result: the scan over sorted files that do not overlap answers first-fit (the lowest free place, failure only if there is none) if and only if there is room or no deleted record is followed by enough blocks; and where a file of no blocks makes the unsigned difference wrap around, if and only if the end of the file before it is free |
| Bmfs.CmpSorts | nanOS/Bootloader/BMFS/bmfs.c:594-606 | a list without a 0x00 record and with starts below 2^31 is sorted by StartingBlockCmp, with its cut to an int, if and only if the live files come first, by their starts |
| Bmfs.WrapIs | nanOS/Bootloader/BMFS/bmfs.c:675-682 | the difference wraps around exactly at a file of no blocks that is sorted behind one of some blocks with the same start |
| Bmfs.ScanDeleted | nanOS/Bootloader/BMFS/bmfs.c:671-682 | behind the live files the scan tries the end of every deleted record |
| Bmfs.TooSmall | nanOS/Bootloader/BMFS/bmfs.c:675-682 | a gap that is too small holds no place for the file |
| Bmfs.FitsBefore | nanOS/Bootloader/BMFS/bmfs.c:675-679 | the first gap that fits is the lowest place |
| Bmfs.LastGap | nanOS/Bootloader/BMFS/bmfs.c:671-679 | there is room exactly if the last gap is large enough, once all others are not |
| Bmfs.LuredScan | nanOS/Bootloader/BMFS/bmfs.c:671-682 | a disk on which create puts a file over a live one because of a deleted record |
| Bmfs.EmptyFileScan | nanOS/Bootloader/BMFS/bmfs.c:675-682 | a disk on which a file of no blocks, which create is not asked for, makes the unsigned difference wrap, and create puts a file over a live one |
| BmfsFiles.CreateFirstFit | nanOS/Bootloader/BMFS/bmfs.c:634-688 | main result: on any sane directory with a 0x00 record, whatever order qsort leaves among the deleted ones, create answers first-fit (the lowest free place, failure only if there is none) if and only if there is room or no deleted record lures the scan |
| BmfsFiles.CreateUnmarked | nanOS/Bootloader/BMFS/bmfs.c:634-688 | without a 0x00 record create answers block 1, which is right if and only if that much is free from there or does not fit the disk |
| BmfsFiles.SortedOk | nanOS/Bootloader/BMFS/bmfs.c:657-659 | what qsort leaves of the records of a sane directory is ordered as the scan needs it |
| BmfsFiles.CreateSafe | nanOS/Bootloader/BMFS/bmfs.c:608-717 | main result: with a free record and no listed file to cut off, with a 0x00 record or without one, the directory stays sane (extents in range and disjoint, names unique) if and only if the scan is right there; then the new file is the only change, at the lowest place, and its record reserves the fewest blocks that hold the size asked for; failure means no room; with an empty name or one that starts with 0x01 create reports success and adds no file |
| BmfsFiles.CreateSays | nanOS/Bootloader/BMFS/bmfs.c:608-717 | exactly when create fails for the name or for want of a record, that a failure changes nothing, and what success writes: name, size 0 and the least reservation in the free record, at most an end mark behind it, all other records alone |
| BmfsFiles.WantedLeast | nanOS/Bootloader/BMFS/bmfs.c:613-618 | the blocks reserved are the fewest of 2 MiB that hold the MiB asked for |
| BmfsFiles.CreateAdds | nanOS/Bootloader/BMFS/bmfs.c:691-704 | as seen by findfile create adds exactly one empty file and keeps all others, if and only if the name is neither empty nor starts with 0x01, and the directory has a 0x00 record, or its first record is not deleted, or there is no file to lose |
| BmfsFiles.MarkerKeeps | nanOS/Bootloader/BMFS/bmfs.c:691-704 | create with an empty name keeps the files there are if and only if none is listed behind the first free record; with a name that starts with 0x01 if and only if the directory is not cut off |
| BmfsFiles.InsertMarker | nanOS/Bootloader/BMFS/bmfs.c:691-704 | such a name lists nothing new, and the empty one ends the directory where the first free record was |
| BmfsFailures.EmptyNameLoses | nanOS/Bootloader/BMFS/bmfs.c:146-177 | a sane directory, with room and a right scan, from which create with an empty name makes the only file vanish and reports success |
| BmfsFailures.FullScanWrong | nanOS/Bootloader/BMFS/bmfs.c:634-683 | a sane directory of 64 records without a 0x00 record on which the answer of the scan lies in a live file although there is room |
| BmfsFailures.FullDirectoryLoses | nanOS/Bootloader/BMFS/bmfs.c:691-704 | on the same directory, where the scan is right for a smaller file, create reports success and cuts all other files off |
| BmfsFiles.InsertSane | nanOS/Bootloader/BMFS/bmfs.c:691-704 | a new record that cuts nothing off keeps the directory sane if and only if its extent is free; a record that the name makes a 0x00 one always, a deleted one if and only if it lies on the disk |
| BmfsFiles.InsertListed | nanOS/Bootloader/BMFS/bmfs.c:691-704 | the records listed afterwards are the old ones and the new one |
| BmfsFiles.DeleteRemoves | nanOS/Bootloader/BMFS/bmfs.c:800-819 | delete removes exactly the file of that name, or nothing |
| BmfsFiles.DeleteKeepsSane | nanOS/Bootloader/BMFS/bmfs.c:800-819 | delete keeps the directory sane |
| BmfsFiles.DeleteTouches | nanOS/Bootloader/BMFS/bmfs.c:800-819 | delete changes the first byte of one name and nothing else |
| BmfsFiles.WriteUpdates | nanOS/Bootloader/BMFS/bmfs.c:774-790 | a write that fits its reservation changes the contents of that file only, and keeps the directory sane |
| BmfsFiles.WriteTouches | nanOS/Bootloader/BMFS/bmfs.c:752-797 | write fails exactly for a missing file or too many bytes; else it replaces those bytes of the extent and the recorded size, and nothing else on the disk or in the directory |
| BmfsFiles.FindIs | nanOS/Bootloader/BMFS/bmfs.c:203-229 | findfile finds the first listed record of that name if and only if there is one |
| BmfsFiles.FirstFreeIs | nanOS/Bootloader/BMFS/bmfs.c:634-658 | create uses the first deleted record, else the 0x00 record, else none |
| BmfsFiles.StepRefines | nanOS/Bootloader/BMFS/bmfs.c:608-819 | one create, write or delete leaves the volume sane and equal to the same operation on a map from names to contents, if and only if it is no create, or one that fails for its name or for want of a record, or the scan is right and either finds no room or the name is neither empty nor starts with 0x01 and nothing is cut off |
| BmfsFiles.RunRefines | nanOS/Bootloader/BMFS/bmfs.c:146-819 | main result: over any run of creates of at least one MiB under any name that fits its field, writes and deletes, the volume stays sane and is the map, all the way, if and only if every operation meets that guard |
| BmfsDisk.Disk.FindFile | nanOS/Bootloader/BMFS/bmfs.c:203-229 | the loop computes findfile |
| BmfsDisk.Disk.CountUsed | nanOS/Bootloader/BMFS/bmfs.c:634-652 | the loop counts up to the 0x00 record, or nothing without one, and finds the record to use |
| BmfsDisk.Disk.ScanCopy | nanOS/Bootloader/BMFS/bmfs.c:660-683 | the loop computes the scan, with 64-bit wrap-around |
| BmfsDisk.Disk.CreateFile | nanOS/Bootloader/BMFS/bmfs.c:608-717 | create edits the directory buffer in place as specified, with the least reservation, and flushes it only on success |
| BmfsDisk.Disk.ReadFile | nanOS/Bootloader/BMFS/bmfs.c:720-749 | read returns the contents of the file, or nothing if it does not exist |
| BmfsDisk.Disk.WriteFile | nanOS/Bootloader/BMFS/bmfs.c:752-797 | write fails exactly for a missing file or one that does not fit, changing nothing; else that file alone has the new contents |
| BmfsDisk.Disk.DeleteFile | nanOS/Bootloader/BMFS/bmfs.c:800-819 | delete changes one byte of the directory and removes that file alone |
| Line.DrawLine | nanOS/Userland/SampleCodeModule/graphics.c:116-136 | main result: for all end points the loop ends and paints exactly the pixels of the line: one more than the longer distance, the i-th one i steps along, rounded to the nearest across |
| Line.LineShape | nanOS/Userland/SampleCodeModule/graphics.c:116-136 | main result: the pixels go from end to end, one unit on the longer axis and at most one on the other, each within half a pixel of the true line |
| Line.AtEnd | nanOS/Userland/SampleCodeModule/graphics.c:123-123 | both coordinates reach the end point in the same turn, the one after the longer distance, and not before |
| Line.AtIs | nanOS/Userland/SampleCodeModule/graphics.c:124-134 | after i turns the loop stands on the i-th pixel with the error term that the rounding leaves |
| Line.UptoAt | nanOS/Userland/SampleCodeModule/graphics.c:120-121 | the painted line is the sequence of the rounded pixels |
| Line.TurnIs | nanOS/Userland/SampleCodeModule/graphics.c:124-134 | the two tests advance pixel and error term by one |
| Line.Nearest | nanOS/Userland/SampleCodeModule/graphics.c:116-136 | no other pixel of the same column or row is nearer to the true line |
| Line.HalfPixel | nanOS/Userland/SampleCodeModule/graphics.c:119-119 | twice the deviation is at most the longer distance |
| Pages.PageStack.constructor | nanOS/Kernel/memoryAllocator.c:17-21 | at first all pages are free, 1 to 254 and then 0 |
| Pages.PageStack.GetPage | nanOS/Kernel/memoryAllocator.c:31-37 | with a page free, one that nobody holds is handed out, at 0x500000 or above and overlapping no page that is held; free and held pages stay a partition of 0 to 254 |
| Pages.PagesApart | nanOS/Kernel/memoryAllocator.c:34-34 | the pages lie one behind the other from 0x500000 on, distinct ones at least a page apart |
| Pages.PageStack.StorePage | nanOS/Kernel/memoryAllocator.c:42-51 | a page its caller holds becomes free again, first in line |
| Pages.ZeroLastIff | nanOS/Kernel/memoryAllocator.c:15-51 | over a whole run page 0 is last in line in every state if and only if it is never stored while another page is free |
| Pages.ZeroTooEarly | nanOS/Kernel/memoryAllocator.c:31-37 | where it is not last, handing out pages gets to it before the others are gone |
| Pages.ZeroBeforeOne | nanOS/Kernel/memoryAllocator.c:17-51 | a run from the initial order, in which all pages are handed out and pages 1 and 0 are stored, after which page 0 is next and page 1 still free |
| Pages.StepKeepsZeroLast | nanOS/Kernel/memoryAllocator.c:31-51 | the same for one call |
| Pages.NotFull | nanOS/Kernel/memoryAllocator.c:42-51 | while somebody holds a page the stack has room for it |
| Pages.Process.constructor | nanOS/Kernel/process.c:135-142 | a new process has recorded nothing |
| Pages.Process.AddDataPage | nanOS/Kernel/process.c:176-186 | the page goes to the first free slot and is counted, or nothing happens if all 64 slots are in use |
| Pages.Process.RemoveDataPage | nanOS/Kernel/process.c:188-199 | the first slot with the page is emptied and counted off, or nothing happens if there is none |
| Pages.ReplacedPages | nanOS/Kernel/process.c:176-199 | replacing the first slot of one kind changes the recorded pages by exactly that, so counter and slots stay in agreement |
| Pages.ReplacedFirst | nanOS/Kernel/process.c:176-199 | only the first slot of that kind changes |
| Pages.Process.FreeDataPages | nanOS/Kernel/process.c:243-252 | although the loop ends early, every recorded page is stored exactly once |
| Pages.StoredIs | nanOS/Kernel/process.c:243-252 | the stored pages are free afterwards, the last one stored first in line |
| Digits.NumberOfText | nanOS/Kernel/lib.c:56-115 | main result: atoi(itoa(v, 10)) == v if and only if v is not the smallest int, which itoa cannot negate |
| Digits.TextOfNumberIff | nanOS/Kernel/lib.c:56-115 | itoa undoes atoi on exactly the canonical texts of all numbers but the smallest int |
| Digits.BufferRoundTrip | nanOS/Kernel/lib.c:56-115 | atoi on the buffer that itoa has filled gives the number back if and only if it is not the smallest int |
| Digits.Itoa | nanOS/Kernel/lib.c:56-93 | for every int and every base from 2 to 36 the buffer holds the text (with the characters that negative remainders give), a NUL behind it, the returned length is exact and nothing else changes |
| Digits.Atoi | nanOS/Kernel/lib.c:96-115 | the number of the text before the NUL: spaces, a sign, digits, then anything |
| Digits.ReverseInPlace | nanOS/Kernel/lib.c:80-90 | the digits between the two pointers are reversed, nothing else changes |
| Digits.PutDigits | nanOS/Kernel/lib.c:68-75 | the digits are written least significant first |
| Digits.ReversedBackwards | nanOS/Kernel/lib.c:68-90 | the reversed digits are the digits |
| Digits.ReadDigits | nanOS/Kernel/lib.c:109-112 | reading the digits of a number gives the number |
| Digits.NegativeDigits | nanOS/Kernel/lib.c:68-75 | negative remainders give characters of which the first is no digit |
| Digits.SignedReads | nanOS/Kernel/lib.c:56-93 | the digits that itoa writes for a number in any base from 2 to 36 read back in that base as the number, the characters of negative remainders included |
| Digits.NumberReads | nanOS/Kernel/lib.c:96-115 | atoi skips the spaces, takes one sign, reads the digits as a decimal number and ignores the rest, from whatever is no digit on |
| ModulePack.ImageRoundTrip | nanOS/Toolchain/ModulePacker/main.c:52-86 | main result: the loader recovers the modules from the bytes behind the kernel if and only if each is shorter than 2^32 bytes |
| ModulePack.LoadFromIff | nanOS/Kernel/moduleLoader.c:15-36 | the same for the modules behind their count |
| ModulePack.Uint32OfLe32 | nanOS/Toolchain/ModulePacker/main.c:101-106 | a size is read back modulo 2^32, hence unchanged if and only if it is below 2^32 |
| ModulePack.Le32Unique | nanOS/Kernel/moduleLoader.c:38-43 | four bytes are determined by the number the loader reads from them |
| ModulePack.Image.WriteFile | nanOS/Toolchain/ModulePacker/main.c:109-119 | chunks of 128 bytes, the last one short, copy the whole file |
| ModulePack.Image.WriteSize | nanOS/Toolchain/ModulePacker/main.c:101-106 | four more bytes, from which the loader reads the length of the file modulo 2^32; what was there stays |
| ModulePack.Image.BuildImage | nanOS/Toolchain/ModulePacker/main.c:52-86 | the image is the kernel, the count, and each module behind its size |
| ModulePack.LoadModules | nanOS/Kernel/moduleLoader.c:9-17 | main result: with targets that overlap neither the payload nor each other every module of a packed image ends up whole at its address, and no other byte changes |
| ModulePack.LoadModule | nanOS/Kernel/moduleLoader.c:19-36 | one module is copied to its place and the cursor moves behind it |
| ModulePack.ReadUint32 | nanOS/Kernel/moduleLoader.c:38-43 | four bytes, the lowest first |
| ModulePack.CursorOnModule | nanOS/Kernel/moduleLoader.c:19-36 | before each module the cursor stands on its size and bytes, inside the payload |
| ModulePack.CursorAt | nanOS/Kernel/moduleLoader.c:12-17 | the cursor stands on what is left of the payload |

## Left out

- `mutex_close`, `cond_close`, `fifo_close` and `remove_all_philosophers`: they release waiters
  without granting anything, so ownership and streams are stated for objects that stay open. The
  philosophers' `should_die` does close its own mutex and condition, and that is modelled.
- The name tables of `mutex_open`, `cond_open` and `fifo_open`: objects are identified by key; a
  lookup by name that stops at the first closed slot is not modelled.
- The reuse of a killed process's page: a kill is the DELETE mark, identities are not reused, and
  the page of a destroyed process that a queue still points to keeps its mark.
- Assembly, register contexts, stack frames and interrupt set-up; `_unlocked` is an atomic exchange
  and interrupts are off inside a call.
- Contention on the kernel's internal mutexes (memory, tables, queue locks), which atomic calls
  never see.
- The length of a quantum in ticks: fairness is counted in context switches.
- Pages.PageStack.GetPage: asks for a free page, because without one the code locks its mutex a
  second time (nanOS/Kernel/memoryAllocator.c:38) and does not return. The stack page allocator
  is the same algorithm without page 0 and is not modelled.
- Fifo.CircularBuffer.Write: asks for room for at least one byte; on a full buffer the second
  branch of the code copies a negative length.
- `insert_process`, `get_current_pids` and the `n_processes` counter: a map from identities to
  states stands for the process table.
- The key buffer and the choice of the foreground process (`KernelWaits` has their waits and wakeups
  for any process); video, shell, fractals, colours, clock; `draw_circle` and `draw_ellipse`.
- `format`, `list`, `initialize` and command parsing in BMFS, host files and prompts: a disk is an
  array of bytes, a local file a sequence of bytes.
- BmfsDisk.Disk.CreateFile: the result of `qsort` is a parameter, any order that the comparison
  function allows; file names longer than the name field are not accepted.
- BmfsDisk.Disk.ReadFile: the loop counter is a C int, so copying 2^31 bytes and more is not
  modelled; the same holds for `WriteFile`.
- BmfsFiles.CreateSafe: asks for at least one block, as main does (bmfs.c:157, 171); RunRefines
  asks for that and for names that fit their field.
- Line.DrawLine: coordinates are unbounded integers; differences that overflow an int are not
  modelled.
- Digits.Itoa: the negation of the smallest int overflows, which C leaves open; the model takes the
  two's complement result.
- Digits.Atoi: numbers beyond an int are read exactly instead of overflowing.
- `BoundedBuffer` and `TokenBuffer`: the kill and close at the end of the program are not part of
  the runs; sleeping and printing take no step.
- Liveness under a fair schedule: no lost wakeup around removal and bounded waiting in switches are
  proved of all runs, no deadlock of the philosophers (`CarefulNeverStuck`) of the runs whose adds
  meet the guard of `AddKeepsHungry` (others can deadlock: `AddDeadlocks`); eventual progress of
  each philosopher is not promised by the code.
