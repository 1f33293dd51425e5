# Accelerator schedulers: models and proofs

The repository holds two schedulers for accelerators and the checkpointed workloads that run on them. This
project models their hard parts in Dafny and proves what they are for.

- **User-space scheduler** (`uss/`). `UssTypes`, `UssSpec` and `UssScheduler` model the daemon's scheduler: run
  queues, multi-queues, scheduling entities and the redundant indexes over them, as a class whose methods are
  proved against functions on the scheduler's value. `UssBalance`, `UssMigration` and `UssCenter` prove what the
  placement, the load balancer and the centerpoints keep, `UssCenterRuns` the last of these over all runs.
  `UssProtocol`, `UssExclusion` and `UssTurn` model main thread, dispatcher thread, clients and FIFOs as a step
  relation and prove device exclusion and turn accounting over all runs; `UssTick` says what picks, charges and
  preemptions mean for the jobs, and `UssProgress` that no thread gets stuck. `UssRegistration` and `UssHandoff` do the same for the registration hand-off, and `UssLibrary`
  for what a client sends to register.
- **Kernel extension** (`kss/`, kernel). `KssUnit`, `KssLock` and `KssCapacity` model the lock of a computing unit
  and changes of its capacity. `KssSystem` puts all units, tasks and capacity-setting calls together, one step for
  each section under a spinlock and each access outside; `KssSteps`, `KssResize` and `KssInvariant` prove which steps
  keep the units in order, `KssTheorems` and `KssRelease` what follows for runs, and `KssRaces` has runs that go wrong. `KssMutex` and
  `KssDeadlock` model which mutexes the system calls take and prove that nobody waits in a circle. `KssBalance` is
  the first pass of the load balancer.
- **Workloads** (`kss/`, test application). `Primes` has the number theory, `PrimeCpu` the factorisation cut into
  batches, `PrimeGpu` the lock-free factorisation by many threads. `Md5Spec` is MD5 as RFC 1321 defines it, over
  the bit operations of `Md5Vector`; `Md5Bits` proves what these are in arithmetic, and `Md5Suite` works out a digest of
  the standard's test suite.
  `Md5Cpu` and `Md5Stream` the unrolled, streaming digest of the processor, `Md5Kernel` the unrolled block function
  `md5_v2` that the search kernel calls, `Md5Gpu` the block it builds for a number and the digest it gets, and `Words`
  the enumeration of the search space.
- **Scheduler core** (`kss/`, `sched.c`). `TaskGroups` is the walk over the task groups, `RtAdmission` the real-time
  admission check, `CpuLoad` the load averages.

`Arith` and `Collections` hold small facts that several models share. The methods follow the code step by step,
over the fields and arrays it updates; specification functions say what they compute, and the lemmas prove the
properties of those functions and of whole runs. Threads are interleaved at the granularity of the code's locked
sections, or of its single accesses to the modelled fields where it takes no lock.

## What was found

These are results about the code, each with a lemma that gives an input and a lemma that says when the code is right.

- `computing_unit_set` loses a waiter or grants too much when it raises the capacity of an over-committed unit with
  too many waiters. `KssRaces.OvercommittedRaiseLosesWaiter` is a run that ends so, and `KssCapacity.RaiseExact` has
  the exact condition for a call that nothing comes in between.
- `computing_unit_set` finds the difference without any lock and applies it under the spinlock alone, while the other
  calls keep only the access mutex in several places. A change can therefore meet a task that has entered the tree but
  not looked at the counter (`KssRaces.ResizeRace`), one that has counted its slot but not left the tree
  (`KssRaces.RaiseInsideGrant`), one that the load balancer is about to take out (`KssRaces.RaiseInsidePull`), a release
  between its test and its hand-over (`KssRaces.LoweringInsideRelease`), or another change (`KssRaces.TwoRaises`,
  `KssRaces.MissedRaise`). `KssResize.ResizeExact` has the exact condition for a change at any moment and with any
  difference: what it wakes fits and is enough for those who go on waiting, a task for which the mutex is held stays
  in the tree, and a release that will hand over keeps its room. `KssRelease.LoweringOvergrants` shows for the last
  part that such a release does go on to grant too much.
- `computing_unit_alloc` that cannot copy its result out gives the slot back but leaves its task as the current one of
  the queue. If the task comes back and has to wait, it is not put into the tree (`KssRaces.FaultStrands`). A release
  ends well exactly if its task is dead, not current, or the unit is offline (`KssInvariant.CareExact`), which is always
  so where no such copy fails (`KssTheorems.FaultlessRuns`).
- `KssTheorems.SoundRunsAreCareful` shows that the runs in which every step is right are exactly those that meet the
  conditions of the last two points; the theorems about runs of the computing-unit lock are for these.
- A handle whose job ends before its dispatcher thread has taken the pending entry out is recycled too early, and the
  next registration under it finds the stale entry: the main loop fetches -1 while the new client waits
  (`UssHandoff.StaleEntryLosesRegistration`). `UssHandoff.HandOffExact` shows that the hand-off is right throughout a run
  exactly if no retired handle is still held by a dispatcher.
- `number2indexword` yields an index behind the alphabet whenever a remaining number equals the current step
  (`Words.ConvertedExact`), and counting on from there stays wrong (`Words.Resume`). This happens at the start of
  batch 65, which therefore never tests word 32999 (`Words.Batch65SkipsWord`). The code's own comment excludes numbers from 52^7 on; the code ends the program above
  52^6, and 52^6 itself is accepted.
- `update` in the MD5 worker compares a 32-bit sum that wraps for lengths near 2^32. `Md5Stream.InsideExactly` has the
  exact lengths for which its loop absorbs no byte past the input, `Md5Stream.LongestUpdate` one for which it does.
- The real-time ratio wraps for runtimes from 2^44 ns on (`RtAdmission.RatioExact`), so that a group with such a
  bandwidth may count for nothing (`RtAdmission.LongPeriodUncounted`).
- The affinity bonus for tasks with a single implementation falls short of the bound it is compared with when
  affinity and gain sum to less than two (`KssBalance.BonusSuffices`), as with affinity one and no gain
  (`KssBalance.BonusFallsShort`).

## Model

| member | source | states |
|---|---|---|
| UssTypes.Leftmost | uss/src/daemon/uss_scheduler.h:58-84 | the first entry of a run-queue tree: least virtual runtime, ties by handle |
| UssSpec.HandleCleanupValid | uss/src/daemon/uss_scheduler.cpp:1717-1753 | a cleanup message keeps every index of the scheduler in agreement |
| UssSpec.PickNextValid | uss/src/daemon/uss_scheduler.cpp:1755-1907 | a pick, or finding nothing to pick, keeps every index in agreement |
| UssSpec.ChargeValid | uss/src/daemon/uss_scheduler.cpp:1205-1236 | charging runtime re-keys the running job in its own tree and keeps every index in agreement |
| UssSpec.UpdateCurrValid | uss/src/daemon/uss_scheduler.cpp:1241-1406 | an update of the running job, with or without preemption, keeps every index in agreement |
| UssSpec.MoveValid | uss/src/daemon/uss_scheduler.cpp:707-807 | a move to another type leaves the job in exactly one tree, in the push list of its new type and in the pull lists of all other active types it supports |
| UssSpec.AddJobValid | uss/src/daemon/uss_scheduler.cpp:883-1027 | admission keeps every index in agreement |
| UssSpec.RemoveJobValid | uss/src/daemon/uss_scheduler.cpp:1034-1135 | removal leaves no trace of the handle in any tree or list and keeps the rest in agreement |
| UssScheduler.FirstActiveIs | uss/src/daemon/uss_scheduler.cpp:921-936 | the loop over the client's types stops at the first active one |
| UssScheduler.Scheduler.constructor | uss/src/daemon/uss_scheduler.cpp:368-404 | an empty scheduler is consistent |
| UssScheduler.Scheduler.CreateRq | uss/src/daemon/uss_scheduler.cpp:368-404 | a new queue joins its multi-queue; an existing one is refused |
| UssScheduler.Scheduler.GetBestRqOfMq | uss/src/daemon/uss_scheduler.cpp:537-572 | finds the first queue at or below the average fill; there always is one |
| UssScheduler.Scheduler.InsertToRq | uss/src/daemon/uss_scheduler.cpp:435-487 | the handle enters the tree at the average runtime, or is refused if the entry exists |
| UssScheduler.Scheduler.RemoveFromRq | uss/src/daemon/uss_scheduler.cpp:495-527 | the entry of a job that is not running leaves its tree |
| UssScheduler.Scheduler.InsertToMq | uss/src/daemon/uss_scheduler.cpp:580-640 | placement on the emptiest queue, with counter and push list |
| UssScheduler.Scheduler.AddJob | uss/src/daemon/uss_scheduler.cpp:883-1027 | accepted exactly if the handle is new and a supported type is active; then the job is placed on the first such type and the queues are ticked |
| UssScheduler.Scheduler.RemoveJob | uss/src/daemon/uss_scheduler.cpp:1034-1135 | succeeds exactly if the job exists and is not current, and then removes all of it |
| UssScheduler.Scheduler.MoveToRq | uss/src/daemon/uss_scheduler.cpp:699-807 | moves the job if it is neither running, finished nor the last of its queue, and otherwise changes nothing |
| UssScheduler.Scheduler.UpdateRuntime | uss/src/daemon/uss_scheduler.cpp:1205-1236 | the clock since the last charge goes to real and virtual runtime, and the tree entry moves from the old key to the new one |
| UssScheduler.Scheduler.UpdateCurr | uss/src/daemon/uss_scheduler.cpp:1241-1406 | charge, and a preempt message exactly if none was sent, the granularity is used up and another unfinished job comes first |
| UssScheduler.Scheduler.PickNext | uss/src/daemon/uss_scheduler.cpp:1755-1907 | the leftmost unfinished job becomes current and gets RUNON; without one the queue turns idle |
| UssScheduler.Scheduler.PeriodicTick | uss/src/daemon/uss_scheduler.cpp:1408-1443 | every queue once, in the order of the matrix |
| UssScheduler.Scheduler.PullPhase | uss/src/daemon/uss_scheduler.cpp:1491-1538 | every type has its turn, in order: one with as many jobs as queues pulls nothing, and otherwise each of its queues ends up with a job unless none anywhere may move to it; that still holds after the phase, also for types short of jobs at its start |
| UssScheduler.Scheduler.PushPhase | uss/src/daemon/uss_scheduler.cpp:1545-1665 | every type has its turn, in order: only a crowded one pushes, one job at most, the first of least affinity that can be pushed, to the first good type of its list; if it pushes none, those tried are enough or all |
| UssScheduler.Scheduler.LoadBalancing | uss/src/daemon/uss_scheduler.cpp:1480-1670 | pull, tick, push with these turns: the jobs and what they are doing are conserved, the indexes agree, and after the pull every queue of a multi-queue that was short of jobs when visited is served |
| UssScheduler.Scheduler.HandleCleanup | uss/src/daemon/uss_scheduler.cpp:1717-1753 | the entity turns idle, and is marked for removal if the client is done; unknown handles end the daemon |
| UssScheduler.Scheduler.HandleMessage | uss/src/daemon/uss_scheduler.cpp:1909-1937 | a report frees the entity and hands the queue to the next job; the indexes agree afterwards |
| UssScheduler.Scheduler.RemoveFinishedJobs | uss/src/daemon/uss_scheduler.cpp:1672-1687 | succeeds exactly if the up to 1000 least handles of the kill list are known and not current; then exactly these are gone from table, trees and lists, and nothing else changed |
| UssScheduler.LowestIs | uss/src/daemon/uss_scheduler.cpp:1672-1687 | the handles of one pass are the least ones, 1000 of them or all |
| UssTick.PickIs | uss/src/daemon/uss_scheduler.cpp:1755-1907 | the first entry that is neither finished nor running becomes current with its granularity and is told so; if there is none the queue turns idle |
| UssTick.ChargeIs | uss/src/daemon/uss_scheduler.cpp:1205-1236 | what a charge does to both runtimes and to the tree, entry by entry |
| UssTick.UpdateIs | uss/src/daemon/uss_scheduler.cpp:1241-1406 | a tick of a busy queue is a charge, and a message exactly if the job is due to stop |
| UssTick.TickAllEach | uss/src/daemon/uss_scheduler.cpp:1408-1443 | after the tick of all queues every queue stands as if it alone had been ticked, whatever the order |
| UssTick.TickIs | uss/src/daemon/uss_scheduler.cpp:1241-1406 | the tick of one queue: an idle one gets its next job, a busy one a message exactly if its job is due |
| UssBalance.CounterIsSumOfLengths | uss/src/daemon/uss_scheduler.cpp:580-690 | the handle counter of a multi-queue is the sum of its tree sizes |
| UssBalance.RoomExists | uss/src/daemon/uss_scheduler.cpp:537-572 | some queue is at or below the average fill |
| UssBalance.AdmissionKeepsBalance | uss/src/daemon/uss_scheduler.cpp:537-624 | placement keeps every queue at floor(n/k) or ceil(n/k) jobs |
| UssMigration.LegalMoveConserves | uss/src/daemon/uss_scheduler.cpp:699-807 | a legal move keeps the jobs, empties no queue, moves no running or finished job, never within one type |
| UssMigration.MigratesConserves | uss/src/daemon/uss_scheduler.cpp:1480-1670 | a whole phase of moves does |
| UssMigration.RefillKeepsExhausted | uss/src/daemon/uss_scheduler.cpp:1491-1538 | a multi-queue with nothing left to pull stays so during later refills |
| UssMigration.RefillsKeepServed | uss/src/daemon/uss_scheduler.cpp:1491-1538 | a served queue stays served during later refills |
| UssMigration.StarvingUntilVisited | uss/src/daemon/uss_scheduler.cpp:1491-1538 | a multi-queue short of jobs at the start of the pull phase is still short when its turn comes |
| UssMigration.RefillIs | uss/src/daemon/uss_scheduler.cpp:1506-1538 | no job that may move to the refilled queue has a greater affinity for it, or the same and a greater handle |
| UssMigration.MovableIs | uss/src/daemon/uss_scheduler.cpp:699-740 | what may move: an unfinished job that does not run and has company |
| UssMigration.CrowdedIs | uss/src/daemon/uss_scheduler.cpp:1560-1565 | what too full means: a whole job above the centerpoint, and more jobs than queues |
| UssMigration.CurveIs | uss/src/daemon/uss_scheduler.cpp:142-153 | the push curve falls by one for each job too many and stays at one |
| UssMigration.StarvingIs | uss/src/daemon/uss_scheduler.cpp:1501-1502 | short of jobs means less than one job for each queue |
| UssMigration.PushableIs | uss/src/daemon/uss_scheduler.cpp:1595-1650 | what can be pushed: a job that may move, is on no device and has a type of its list to go to |
| UssCenter.AddKeepsCenters | uss/src/daemon/uss_scheduler.cpp:968-1017 | every centerpoint stays the sum of the jobs' shares |
| UssCenter.RemoveKeepsCenters | uss/src/daemon/uss_scheduler.cpp:1072-1111 | also after a removal |
| UssCenter.MigrationKeepsCenters | uss/src/daemon/uss_scheduler.cpp:707-807 | also after a move |
| UssCenter.CentersSumToJobs | uss/src/daemon/uss_scheduler.cpp:968-1111 | all centerpoints together sum to the number of jobs |
| UssCenter.ShareIs | uss/src/daemon/uss_scheduler.cpp:1003-1017 | a share is the affinity in proportion to the sum over the active types |
| UssCenter.RemoveUndoesAdd | uss/src/daemon/uss_scheduler.cpp:883-1135 | removing a job right after admission restores the state |
| UssCenter.RemoveUndoesAddAndMoves | uss/src/daemon/uss_scheduler.cpp:707-1135 | whatever moves it made in between, the removal restores the whole state |
| UssCenter.RemoveUndoesCenters | uss/src/daemon/uss_scheduler.cpp:707-1135 | whatever moves any jobs made in between, the removal takes every centerpoint back to its value before the admission |
| UssCenterRuns.CentersInRuns | uss/src/daemon/uss_scheduler.cpp:883-1135 | in every state of every run that starts from zero each centerpoint is the sum of the shares of the jobs, and together they count the jobs |
| UssCenterRuns.SameJobsSameCenters | uss/src/daemon/uss_scheduler.cpp:883-1135 | two states of a run with the same jobs have the same centerpoints, whatever was admitted, moved and removed between them |
| UssProtocol.DeviceExclusion | uss/src/library/uss_library.cpp:428-634 | under the invariant two clients between init and free are on different devices |
| UssProtocol.RunnerIsCurrent | uss/src/library/uss_library.cpp:428-634 | a client that uses a device is current on that queue |
| UssProtocol.InvitedIsCurrent | uss/src/daemon/uss_scheduler.cpp:1755-1907 | so is a client with RUNON queued |
| UssProtocol.ReporterIsCurrent | uss/src/daemon/uss_scheduler.cpp:1909-1937 | so is a client with a report in flight |
| UssExclusion.NextKeepsInv | uss/src/daemon/uss_scheduler.cpp:1241-1937 | every step of daemon, dispatcher, clients and channels keeps the token invariant |
| UssExclusion.Exclusion | uss/src/daemon/uss_scheduler.cpp:1717-1937 | in every state of every run no two clients use the same device, and users, invited and reporting clients are current |
| UssProgress.ClientStepIs | uss/src/library/uss_library.cpp:428-634 | the loop of a client, step by step: what it reads, where it goes, when it runs and frees |
| UssProgress.Yields | uss/src/library/uss_library.cpp:453-460 | in every run a client that ran once and reads another place to run runs no more before it frees the device |
| UssProgress.GoesOn | uss/src/library/uss_library.cpp:453-460 | and one that is meant to stay, or has not run yet, runs |
| UssProgress.ClientCanGo | uss/src/library/uss_library.cpp:428-634 | a client stands still only when it is through, or waits with nothing to read |
| UssProgress.ReportIsTaken | uss/src/daemon/uss_scheduler.cpp:1717-1753 | a report can always be taken up; its sender turns idle and is marked if it is done |
| UssProgress.DispatcherGoesOn | uss/src/daemon/uss_scheduler.cpp:1755-1907 | and then the queue can always be given to the first job that may run |
| UssProgress.IdleQueueIsServed | uss/src/daemon/uss_scheduler.cpp:1241-1270 | an idle queue can always be found and given to the first job that may run |
| UssProgress.MainGoesOn | uss/src/daemon/uss_scheduler.cpp:1755-1907 | a main thread that found a queue idle can give it to the first job that may run |
| UssProgress.BusyQueueIsTicked | uss/src/daemon/uss_scheduler.cpp:1241-1406 | a busy queue can always be ticked |
| UssProgress.ReportSays | uss/src/library/uss_library.cpp:467-488 | a report names the device that was freed and says whether the client is done |
| UssProgress.NewClientIsAdmitted | uss/src/daemon/uss_scheduler.cpp:883-1027 | a new client can be admitted with any type it supports, as an idle job without runtime |
| UssProgress.FinishedAreMarked | uss/src/daemon/uss_scheduler.cpp:1717-1753 | in every state of every run exactly the finished jobs are on the kill list |
| UssProgress.FinishedJobLeaves | uss/src/daemon/uss_scheduler.cpp:1034-1135 | a finished job that is not current can leave, and then no tree knows it |
| UssProgress.MainMayAct | uss/src/daemon/uss_scheduler.cpp:1480-1670 | the clock may advance and a legal move may happen whenever the main thread is free |
| UssTurn.RunKeepsBook | uss/src/daemon/uss_scheduler.cpp:1205-1236 | in every run both runtimes charged in a turn are the clock since the pick, and all charges on a queue fit the elapsed clock |
| UssTurn.TurnGuarantee | uss/src/daemon/uss_scheduler.cpp:1335-1374 | in every run no preemption comes before 50 ms, base granularity and the runner-up's lead have passed since the pick |
| UssTurn.PicksBeginTurns | uss/src/daemon/uss_scheduler.cpp:1755-1907 | in every run a pick begins the turn of the first job that may run, with the runner-up's lead read from the tree, and invites its client |
| UssTurn.PreemptsExactly | uss/src/daemon/uss_scheduler.cpp:1241-1406 | in every run a tick of a busy queue sends RUNON/IDLE to its current client exactly if none was sent in the turn, 50 ms, base granularity and lead have passed since the pick, and by then another unfinished job comes first |
| UssRegistration.Controller.GetUniqueHandle | uss/src/daemon/uss_registration_controller.cpp:338-384 | the least recycled handle, or else a fresh one |
| UssRegistration.Controller.AddRegPendingEntry | uss/src/daemon/uss_registration_controller.cpp:73-105 | a new entry under a unique handle; an entry that is already there stays as it is |
| UssRegistration.Controller.GetNewReg | uss/src/daemon/uss_registration_controller.cpp:207-236 | the greatest unprocessed handle, or -1 exactly if there is none |
| UssRegistration.Controller.FinishRegistration | uss/src/daemon/uss_registration_controller.cpp:242-278 | the verdict is published and one registration is counted off |
| UssRegistration.Controller.RemoveRegPendingEntry | uss/src/daemon/uss_registration_controller.cpp:52-66 | the pending entry is gone, and nothing else |
| UssRegistration.Controller.IncreaseNewRegs | uss/src/daemon/uss_registration_controller.cpp:174-185 | one more registration is counted |
| UssHandoff.StepKeepsInv | uss/src/daemon/uss_registration_controller.cpp:506-584 | every step of dispatchers and main thread, other than the retirement of a handle that a dispatcher holds, keeps the counting invariant |
| UssHandoff.HandOff | uss/src/daemon/uss_daemon.cpp:236-266 | in every run the counter at the main loop's test is exact, the fetch finds an entry, nobody is forgotten or answered twice, and handles are partitioned between pool and users |
| UssHandoff.RetireExact | uss/src/daemon/uss_registration_controller.cpp:506-584 | a retirement leaves the handles partitioned exactly if no dispatcher holds the handle any more |
| UssHandoff.HandOffExact | uss/src/daemon/uss_daemon.cpp:236-266 | the hand-off is right in every state of a run exactly if the run retires no handle that a dispatcher holds |
| UssHandoff.MainAnswers | uss/src/daemon/uss_daemon.cpp:236-266 | as long as a registration is counted the main thread alone gets to the answer for a waiting client, and counts it off |
| UssHandoff.WaitersAreCounted | uss/src/daemon/uss_daemon.cpp:236-266 | while a client waits a registration is counted, or some dispatcher is about to count one |
| UssHandoff.DispatcherGoesOn | uss/src/daemon/uss_registration_controller.cpp:506-584 | a dispatcher can always go on, unless it waits for the answer to its client |
| UssHandoff.StaleEntryLosesRegistration | uss/src/daemon/uss_registration_controller.cpp:564-575 | a run in which a recycled handle meets its stale entry and the fetch returns -1 |
| UssLibrary.Collect | uss/src/library/uss_library.cpp:238-262 | the wanted types in type order, at most ten |
| UssLibrary.TransportedAre | uss/src/library/uss_library.cpp:238-262 | exactly the wanted types below which fewer than ten are wanted travel, with their values |
| UssLibrary.CompareExchange | uss/src/library/uss_library.cpp:272-287 | neighbours of the three parallel arrays trade places together |
| UssLibrary.SortMsai | uss/src/library/uss_library.cpp:265-289 | the arrays become descending in affinity by a stable permutation of the triples |
| UssLibrary.RegisterMsai | uss/src/library/uss_library.cpp:238-289 | refused exactly if no type is wanted; otherwise sorted and stable |
| UssLibrary.TiesByType | uss/src/library/uss_library.cpp:265-289 | slots are ordered by falling affinity, and by rising type on ties |
| UssLibrary.SentMsaiOk | uss/src/library/uss_library.cpp:238-289 | what is sent meets the daemon's assumptions: distinct types, positive affinities, at most ten |
| UssLibrary.PlacedOnBestType | uss/src/daemon/uss_scheduler.cpp:921-936 | the job goes to an active type of maximal affinity, the lowest type on ties |
| KssLock.CfsRq.Enqueue | kss/src/linux-source-2.6.32/kernel/sched_fair_hw.c:155-186 | the waiter enters the tree behind its equals, with count, load and flag; a queued task is left alone, the current one is counted only |
| KssLock.CfsRq.Dequeue | kss/src/linux-source-2.6.32/kernel/sched_fair_hw.c:164-202 | the waiter leaves tree, count, load and flag |
| KssLock.CfsRq.PickNextTask | kss/src/linux-source-2.6.32/kernel/sched_fair_hw.c:204-240 | the leftmost waiter leaves and becomes current |
| KssLock.CfsRq.PickLiveTask | kss/src/linux-source-2.6.32/kernel/sched_hwaccel.c:563-567 | the first live waiter, and the dead ones before it, leave the tree |
| KssLock.CfsRq.CuDown | kss/src/linux-source-2.6.32/kernel/sched_hwaccel.c:471-527 | a call that nothing comes in between: the caller goes elsewhere exactly if the queue is congested and it may; else a slot exactly if one is free, and then the tree is as before; otherwise the caller waits at its place |
| KssLock.CfsRq.TryCount | kss/src/linux-source-2.6.32/kernel/sched_hwaccel.c:503-511 | the section under the spinlock: a slot is counted exactly if one is free |
| KssLock.CfsRq.CuUp | kss/src/linux-source-2.6.32/kernel/sched_hwaccel.c:550-585 | a release that nothing comes in between: the excess shrinks, or the slot is handed over, or it becomes free |
| KssLock.CfsRq.TestExcess | kss/src/linux-source-2.6.32/kernel/sched_hwaccel.c:559-563 | its first section: above the capacity the slot falls |
| KssLock.CfsRq.HandOver | kss/src/linux-source-2.6.32/kernel/sched_hwaccel.c:568-584 | its last section: the slot falls exactly if nobody was picked |
| KssLock.CfsRq.Free | kss/src/linux-source-2.6.32/kernel/sched_hwaccel.c:1442-1471 | the holder leaves the list and its slot is released |
| KssLock.CfsRq.Tidy | kss/src/linux-source-2.6.32/kernel/sched_hwaccel.c:600-647 | the live holders stay, and one slot is released for each dead one |
| KssLock.CfsRq.SetCapacity | kss/src/linux-source-2.6.32/kernel/sched_hwaccel.c:1913-1951 | a change that nothing comes in between: wakes waiters slot by slot as the specification says |
| KssLock.CfsRq.Resize | kss/src/linux-source-2.6.32/kernel/sched_hwaccel.c:1922-1951 | the section under the spinlock, with whatever difference the caller found before |
| KssUnit.InsertSorted | kss/src/linux-source-2.6.32/kernel/sched_fair_hw.c:173-186 | the tree stays ordered by virtual runtime |
| KssUnit.InsertPlace | kss/src/linux-source-2.6.32/kernel/sched_fair_hw.c:173-186 | the new waiter goes behind its equals, and the others keep their order |
| KssUnit.InsertUndone | kss/src/linux-source-2.6.32/kernel/sched_hwaccel.c:495-524 | taking a task out right after putting it in restores the tree |
| KssUnit.PickLiveTakes | kss/src/linux-source-2.6.32/kernel/sched_hwaccel.c:563-567 | a pick takes from the left only, and fails only if all waiters are dead |
| KssCapacity.RaiseWakes | kss/src/linux-source-2.6.32/kernel/sched_hwaccel.c:1926-1949 | while the capacity suffices the first live waiters get one slot each |
| KssCapacity.RaiseFails | kss/src/linux-source-2.6.32/kernel/sched_hwaccel.c:1926-1949 | otherwise a waiter is lost, or gets a slot the unit does not have |
| KssCapacity.RaiseExact | kss/src/linux-source-2.6.32/kernel/sched_hwaccel.c:1913-1951 | a change of capacity works exactly if it lowers, or the unit was not over-committed, or all live waiters fit |
| KssSteps.EnterKeeps | kss/src/linux-source-2.6.32/kernel/sched_hwaccel.c:488-497 | entering the tree keeps counter, tree, owners, current task and pending hand-overs of the unit in agreement |
| KssSteps.CheckKeeps | kss/src/linux-source-2.6.32/kernel/sched_hwaccel.c:503-511 | counting a slot or going to sleep keeps them in agreement |
| KssSteps.DequeueKeeps | kss/src/linux-source-2.6.32/kernel/sched_hwaccel.c:513-524 | leaving the tree with a slot, or at the hands of the load balancer, keeps them in agreement |
| KssSteps.TestKeeps | kss/src/linux-source-2.6.32/kernel/sched_hwaccel.c:559-563 | the test of a release keeps them in agreement |
| KssSteps.PickKeeps | kss/src/linux-source-2.6.32/kernel/sched_hwaccel.c:563-567 | each pick of a release keeps them in agreement, whether the picked task lives or not |
| KssSteps.FinishKeeps | kss/src/linux-source-2.6.32/kernel/sched_hwaccel.c:568-585 | the end of a release keeps them in agreement if it does not leave its task as the current one |
| KssResize.ResizeKeeps | kss/src/linux-source-2.6.32/kernel/sched_hwaccel.c:1922-1951 | a safe change of capacity keeps them in agreement, whatever call is under way and whatever difference was found |
| KssResize.ResizeExact | kss/src/linux-source-2.6.32/kernel/sched_hwaccel.c:1913-1951 | a change at any moment and with any difference keeps them in agreement and grants within the new capacity exactly if what it wakes fits and is enough, a task for which the mutex is held stays in the tree, and a release that will hand over has room |
| KssResize.UndisturbedResize | kss/src/linux-source-2.6.32/kernel/sched_hwaccel.c:1913-1951 | for a call that nothing comes in between, with the mutex free, that is the condition of RaiseExact |
| KssInvariant.StepKeepsInv | kss/src/linux-source-2.6.32/kernel/sched_hwaccel.c:433-647 | every step of any task on any unit keeps the invariant of all units, a change of capacity if it is safe, the end of a release if it leaves no stale current task |
| KssInvariant.GrantsFit | kss/src/linux-source-2.6.32/kernel/sched_hwaccel.c:550-585 | while a unit is over-committed its owners only leave |
| KssInvariant.CareExact | kss/src/linux-source-2.6.32/kernel/sched_hwaccel.c:433-585 | a step keeps all units in order and grants nothing beyond a capacity exactly if it meets these two conditions |
| KssRelease.UndisturbedRelease | kss/src/linux-source-2.6.32/kernel/sched_hwaccel.c:550-585 | the sections of a release, run one after the other, do what CuUp says |
| KssRelease.WillGrantDoes | kss/src/linux-source-2.6.32/kernel/sched_hwaccel.c:563-585 | a release past its test with a live waiter, or with a picked task, goes on to make it an owner whatever counter and capacity are by then |
| KssRelease.LoweringOvergrants | kss/src/linux-source-2.6.32/kernel/sched_hwaccel.c:550-585 | after a change that leaves such a release without room, its own steps grant beyond the capacity |
| KssTheorems.SlotsAccounted | kss/src/linux-source-2.6.32/kernel/sched_hwaccel.c:433-585 | in every careful run the counter is the number of slots taken, owned or being given back, no slot is idle while someone waits, nobody waits outside the tree, and an excess comes from a lowering |
| KssTheorems.WithinCapacity | kss/src/linux-source-2.6.32/kernel/sched_hwaccel.c:471-585 | in every careful run without lowering below the load no unit works beyond its capacity |
| KssTheorems.NoLostWakeup | kss/src/linux-source-2.6.32/kernel/sched_hwaccel.c:433-585 | in every careful run where somebody waits the capacity is zero or somebody has a slot to give back |
| KssTheorems.CanGo | kss/src/linux-source-2.6.32/kernel/sched_hwaccel.c:433-585 | a task for which the mutex is held can take its next step, and any other one can as soon as the mutex is free |
| KssTheorems.CalledIsHanded | kss/src/linux-source-2.6.32/kernel/sched_hwaccel.c:563-585 | a task that a release took out of the tree will be handed the slot by it |
| KssTheorems.OfflineStays | kss/src/linux-source-2.6.32/kernel/sched_hwaccel.c:1208-1215 | nobody becomes the holder of a unit that went off line |
| KssTheorems.SoundRunsAreCareful | kss/src/linux-source-2.6.32/kernel/sched_hwaccel.c:433-585 | the runs in which every step keeps the units in order and grants within the capacity are exactly the careful ones |
| KssTheorems.FaultlessRuns | kss/src/linux-source-2.6.32/kernel/sched_hwaccel.c:1259-1285 | where no result fails to be copied out a run is careful exactly if all its changes of capacity are safe |
| KssRaces.ResizeRace | kss/src/linux-source-2.6.32/kernel/sched_hwaccel.c:1913-1951 | a run in which a change of capacity between enqueue and check strands a task |
| KssRaces.RaiseInsideGrant | kss/src/linux-source-2.6.32/kernel/sched_hwaccel.c:503-524 | a run in which a raise between counting and dequeuing counts two slots for one owner |
| KssRaces.RaiseInsidePull | kss/src/linux-source-2.6.32/kernel/sched_hwaccel.c:893-906 | a run in which a raise counts a slot for a task that the load balancer sends away |
| KssRaces.LoweringInsideRelease | kss/src/linux-source-2.6.32/kernel/sched_hwaccel.c:559-585 | a run in which a lowering between test and hand-over lets a release grant above the capacity |
| KssRaces.TwoRaises | kss/src/linux-source-2.6.32/kernel/sched_hwaccel.c:1913-1951 | a run in which two overlapping raises grant three slots at capacity two, without any lowering |
| KssRaces.MissedRaise | kss/src/linux-source-2.6.32/kernel/sched_hwaccel.c:1907-1951 | a run in which a slot stays idle while a live task waits, with all calls returned |
| KssRaces.OvercommittedRaiseLosesWaiter | kss/src/linux-source-2.6.32/kernel/sched_hwaccel.c:1913-1951 | a run that lowers a capacity, raises it and leaves a waiter outside the tree |
| KssRaces.FaultStrands | kss/src/linux-source-2.6.32/kernel/sched_hwaccel.c:1259-1285 | a run in which a task whose result could not be copied out waits outside the tree |
| KssMutex.FirstPassOutcome | kss/src/linux-source-2.6.32/kernel/sched_hwaccel.c:857-908 | the first balancing pass takes and drops in order and ends with the list mutex alone |
| KssMutex.CallsDisciplined | kss/src/linux-source-2.6.32/kernel/sched_hwaccel.c:1089-1495 | every system call, whatever the data decide, obeys the mutex discipline and ends holding nothing |
| KssMutex.CallTakes | kss/src/linux-source-2.6.32/kernel/sched_hwaccel.c:1089-1495 | a call takes exactly the mutexes of the units it touches, and that of the list exactly if it needs it |
| KssDeadlock.Discipline | kss/src/linux-source-2.6.32/kernel/sched_hwaccel.c:837-1495 | in every run who waits for the list mutex holds nothing, and only its holder ever has two queue mutexes |
| KssDeadlock.NoWaitCycle | kss/src/linux-source-2.6.32/kernel/sched_hwaccel.c:837-1495 | no reachable state has a cycle of waiting threads |
| KssDeadlock.SomeoneCanMove | kss/src/linux-source-2.6.32/kernel/sched_hwaccel.c:837-1495 | as long as a call is under way some thread can take its next step |
| KssBalance.AffinityIs | kss/src/linux-source-2.6.32/kernel/sched_hwaccel.c:656-710 | the affinity in numbers, for every type and every bonus and malus |
| KssBalance.AffinitySeparates | kss/src/linux-source-2.6.32/kernel/sched_hwaccel.c:656-710 | zero without an implementation or offline; otherwise above one exactly up to a bound on the gain, which gains from zero to five always meet |
| KssBalance.BonusSuffices | kss/src/linux-source-2.6.32/kernel/sched_hwaccel.c:672-700 | when the bonus lifts a task with one implementation over the bound |
| KssBalance.BonusFallsShort | kss/src/linux-source-2.6.32/kernel/sched_hwaccel.c:672-700 | with affinity one and no gain the task stays one below the bound |
| KssBalance.ScanUnit | kss/src/linux-source-2.6.32/kernel/sched_hwaccel.c:873-888 | one unit's waiters: best candidate so far, and its mutex kept |
| KssBalance.BestIs | kss/src/linux-source-2.6.32/kernel/sched_hwaccel.c:854-895 | the best candidate in terms of the waiting tasks: greatest affinity, then greatest load, then first, above (1, 0) |
| KssBalance.FirstBalancingPass | kss/src/linux-source-2.6.32/kernel/sched_hwaccel.c:854-895 | the candidate is the first waiting task of greatest affinity, then of greatest load of its unit, above (1, 0), over all units that are not the target and not locked; exactly its mutex is held besides the list mutex, and the takes and drops are a script of the pass over these units |
| Primes.Euclid | kss/src/testapplication/worker_prime.cpp:131-144 | a prime that divides a product divides a factor |
| Primes.Unique | kss/src/testapplication/worker_prime.cpp:131-163 | two factorisations of one number are equal |
| Primes.ExactMultiplicity | kss/src/testapplication/worker_prime.cpp:131-144 | an exponent is the exact multiplicity of its prime |
| Primes.FewPrimes | kss/src/testapplication/worker_prime.h:6-36 | a 64-bit number splits into fewer than 64 prime powers, so the arrays never fill |
| Primes.SiftedPastRoot | kss/src/testapplication/worker_prime.cpp:71-85 | a remainder sifted beyond its root is prime |
| PrimeCpu.Worker.constructor | kss/src/testapplication/worker_prime.cpp:443-477 | after init the factors of two are out and the search stands at three |
| PrimeCpu.Worker.StripTwos | kss/src/testapplication/worker_prime.cpp:465-477 | the power of two is divided out completely |
| PrimeCpu.Worker.TestCandidate | kss/src/testapplication/worker_prime.cpp:131-144 | the candidate is divided out completely, and was prime if it divided at all |
| PrimeCpu.Worker.CheckResults | kss/src/testapplication/worker_prime.cpp:71-118 | zero exactly at the end, and then the factorisation is complete |
| PrimeCpu.Worker.CpuMain | kss/src/testapplication/worker_prime.cpp:153-163 | a batch ends at a checkpoint with all smaller divisors done, or with the complete factorisation |
| PrimeCpu.Factorise | kss/src/testapplication/worker_prime.cpp:71-163 | for every n below 2^64 and every way to cut the run into batches the search ends, with increasing primes, exact multiplicities and product n |
| PrimeCpu.BatchesIrrelevant | kss/src/testapplication/worker_prime.cpp:153-163 | the result does not depend on the batches |
| PrimeGpu.StepKeepsInv | kss/src/testapplication/worker_prime.cu:22-68 | every atomic step of every thread keeps conservation, ownership and the root obligation |
| PrimeGpu.Conservation | kss/src/testapplication/worker_prime.cu:22-68 | in every interleaving remainder times divided-out powers is the start, each index has one owner, and no write leaves the arrays |
| PrimeGpu.Quiescence | kss/src/testapplication/worker_prime.cu:29-67 | when all threads have left, the table times the remainder is the start, no candidate divides the remainder, and the root fits it if anything was divided out |
| PrimeGpu.ExactExponents | kss/src/testapplication/worker_prime.cu:29-57 | with distinct prime candidates every entry is an exact multiplicity |
| PrimeGpu.IsPrimeCandidate | kss/src/testapplication/worker_prime.cu:8-19 | the candidate filter decides primality from two on |
| Md5Spec.DecodeEncode | kss/src/testapplication/worker_md5.cpp:798-816 | words survive the way to bytes and back |
| Md5Spec.EncodeDecode | kss/src/testapplication/worker_md5.cpp:798-816 | bytes survive the way to words and back |
| Md5Spec.AbsorbConcat | kss/src/testapplication/worker_md5.cpp:926-937 | absorbing a concatenation is absorbing one part after the other |
| Md5Spec.LengthIs | kss/src/testapplication/worker_md5.cpp:956-975 | the two length words are the bit length mod 2^64 |
| Md5Suite.Md5OfAbc | kss/src/testapplication/worker_md5.cpp:680-988 | the digest of "abc" is the one of the test suite in section A.5 of RFC 1321 |
| Md5Bits.RotateIs | kss/src/testapplication/worker_md5.cpp:700-703 | a rotation in arithmetic: x * 2^n mod 2^32 plus x / 2^(32-n) |
| Md5Bits.FChooses | kss/src/testapplication/worker_md5.cpp:680-683 | each bit of F is that of the second word where the first has a one, else that of the third |
| Md5Bits.GChooses | kss/src/testapplication/worker_md5.cpp:685-688 | G is F with its words turned |
| Md5Bits.HAdds | kss/src/testapplication/worker_md5.cpp:690-693 | each bit of H is the parity of the three |
| Md5Cpu.Round1 | kss/src/testapplication/worker_md5.cpp:826-842 | the 16 unrolled lines are steps 0 to 15 of the table-driven form |
| Md5Cpu.Round2 | kss/src/testapplication/worker_md5.cpp:844-860 | steps 16 to 31 |
| Md5Cpu.Round3 | kss/src/testapplication/worker_md5.cpp:862-878 | steps 32 to 47 |
| Md5Cpu.Round4 | kss/src/testapplication/worker_md5.cpp:880-896 | steps 48 to 63 |
| Md5Cpu.TransformWords | kss/src/testapplication/worker_md5.cpp:821-905 | the unrolled transform is the block function of section 3.4 of RFC 1321 |
| Md5Cpu.DecodeBytes | kss/src/testapplication/worker_md5.cpp:798-803 | four bytes a word, low-order byte first |
| Md5Cpu.EncodeWords | kss/src/testapplication/worker_md5.cpp:808-816 | four bytes a word, low-order byte first |
| Md5Stream.CountAdds | kss/src/testapplication/worker_md5.cpp:915-918 | the two-word counter with its carry is the bit length mod 2^64 |
| Md5Stream.TestExactIs | kss/src/testapplication/worker_md5.cpp:932-934 | exactly for which lengths the 32-bit loop test never wraps |
| Md5Stream.InsideExactly | kss/src/testapplication/worker_md5.cpp:932-934 | the loop, with its 32-bit sum, never absorbs a byte past the input exactly for those lengths |
| Md5Stream.LongestUpdate | kss/src/testapplication/worker_md5.cpp:932-934 | a length for which it absorbs a byte past the input |
| Md5Stream.Digester.constructor | kss/src/testapplication/worker_md5.cpp:781-793 | a digester of the empty message |
| Md5Stream.Digester.Update | kss/src/testapplication/worker_md5.cpp:910-943 | the digester stands for the message so far plus the input, whatever the position in the buffer |
| Md5Stream.Digester.Finalize | kss/src/testapplication/worker_md5.cpp:956-988 | the digest of the whole message, buffer and counter cleared; a second call changes nothing |
| Md5Stream.Hash | kss/src/testapplication/worker_md5.cpp:910-988 | however a message is cut into updates, the digest is that of the whole |
| Md5Gpu.MixesAgree | kss/src/testapplication/worker_md5.cu:94-120 | the kernel's forms of the bitwise functions are the standard ones |
| Md5Gpu.TableDriven | kss/src/testapplication/worker_md5.cu:72-127 | the table-driven variant, which nothing calls, computes the block function from the initial registers |
| Md5Kernel.KernelRound1 | kss/src/testapplication/worker_md5.cu:268-288 | the 16 lines with their decimal constants are steps 0 to 15 of the table-driven form |
| Md5Kernel.KernelRound2 | kss/src/testapplication/worker_md5.cu:290-310 | steps 16 to 31 |
| Md5Kernel.KernelRound3 | kss/src/testapplication/worker_md5.cu:312-332 | steps 32 to 47 |
| Md5Kernel.KernelRound4 | kss/src/testapplication/worker_md5.cu:334-354 | steps 48 to 63 |
| Md5Kernel.BlockDigest | kss/src/testapplication/worker_md5.cu:255-360 | the function that the search kernel calls is the block function from the initial registers |
| Md5Gpu.NumberToPaddedWord | kss/src/testapplication/worker_md5.cu:137-189 | the block is the padded word of the number |
| Md5Gpu.LetterIs | kss/src/testapplication/worker_md5.h:59-85 | the letters in their order, small ones first, and the zero behind them |
| Md5Gpu.PaddedSix | kss/src/testapplication/worker_md5.cu:174-188 | what one padded block of a six-letter word looks like |
| Md5Gpu.DigestOfNumber | kss/src/testapplication/worker_md5.cu:137-387 | the digest that the search kernel compares for a number is the MD5 digest of its word |
| Md5Gpu.SidesAgree | kss/src/testapplication/worker_md5.cpp:192-232 | processor and accelerator hash the same message for a number exactly if the conversion is exact there |
| Words.CanonicalIs | kss/src/testapplication/worker_md5.cpp:171-191 | the word of a number is proper and has its value |
| Words.ConvertedValue | kss/src/testapplication/worker_md5.cpp:192-232 | the converted digits have the given value in base 52 |
| Words.ConvertedExact | kss/src/testapplication/worker_md5.cpp:192-232 | they are the word of the number exactly if no remainder equals its step |
| Words.Number2IndexWord | kss/src/testapplication/worker_md5.cpp:192-232 | ends the program exactly above 52^6; otherwise terminates with digits of the right value |
| Words.NextIndexWord | kss/src/testapplication/worker_md5.cpp:149-169 | counts up with carries, and is false exactly if no position had a letter to go |
| Words.NextAddsOne | kss/src/testapplication/worker_md5.cpp:149-169 | the next word is the word of the next number, and after the last one comes the first |
| Words.Resume | kss/src/testapplication/worker_md5.cpp:264-285 | after any number of increments the word is that of the number plus k exactly if the conversion at the start was exact |
| Words.SkipsLast | kss/src/testapplication/worker_md5.cpp:253-307 | a batch from any other start never reaches the word of its last number |
| Words.Batch65 | kss/src/testapplication/worker_md5.cpp:192-232 | batch 65 starts at a number whose conversion is not exact |
| Words.Batch65SkipsWord | kss/src/testapplication/worker_md5.cpp:253-307 | that batch never tests its last word |
| TaskGroups.WalkTgTree | kss/src/linux-source-2.6.32/kernel/sched.c:1463-1493 | for every tree and every visitor the jumps make the calls of the recursive traversal, with the same early exit |
| TaskGroups.WalkIsTour | kss/src/linux-source-2.6.32/kernel/sched.c:1463-1493 | the calls are those of the tour down and up the tree, in its order, up to and including the first that returns non-zero |
| RtAdmission.TgSchedulable | kss/src/linux-source-2.6.32/kernel/sched.c:10237-10297 | -EBUSY exactly if real-time tasks would be left without runtime; zero exactly if also the runtime fits its period, the ratio the global one, and the sum of the children's ratios as a 64-bit word the group's |
| RtAdmission.Admit | kss/src/linux-source-2.6.32/kernel/sched.c:10299-10308 | zero exactly if every group is in order, otherwise the value of the first group on the way that is not |
| RtAdmission.WalkChecks | kss/src/linux-source-2.6.32/kernel/sched.c:10237-10308 | zero exactly if every group passes, otherwise the value of a group that fails |
| RtAdmission.AdmissionIs | kss/src/linux-source-2.6.32/kernel/sched.c:10237-10308 | the same for the recursive check, from periods, runtimes and tasks alone |
| RtAdmission.RatioIs | kss/src/linux-source-2.6.32/kernel/sched.c:10211-10217 | the computed ratio is the only number that is everything for the unlimited runtime and else the quotient of what the shift leaves |
| RtAdmission.UnlimitedIsFull | kss/src/linux-source-2.6.32/kernel/sched.c:10211-10217 | without a limit the ratio is 2^20, whatever the period |
| RtAdmission.AdmissionBounds | kss/src/linux-source-2.6.32/kernel/sched.c:10237-10308 | after a successful check the ratios of groups none of which is above another sum to at most the root's, which is at most the global one |
| RtAdmission.RatioExact | kss/src/linux-source-2.6.32/kernel/sched.c:10211-10217 | the ratio is the true one exactly for runtimes below 2^44 ns |
| RtAdmission.LongPeriodUncounted | kss/src/linux-source-2.6.32/kernel/sched.c:10211-10217 | a group that may run all of 2^44 ns has ratio zero |
| CpuLoad.MovesTowards | kss/src/linux-source-2.6.32/kernel/sched.c:3092-3109 | an average moves strictly towards the load and never past it, by at least its share of the distance |
| CpuLoad.Converges | kss/src/linux-source-2.6.32/kernel/sched.c:3092-3109 | under a constant load it arrives exactly, after finitely many ticks |
| CpuLoad.UpdateCpuLoad | kss/src/linux-source-2.6.32/kernel/sched.c:3087-3110 | the five averages of one tick in 64-bit words, without overflow for loads below 2^60 |

## Left out

- Sockets, FIFOs, signals, logging, benchmarks and daemonizing are I/O; channels are sequences of messages.
- Client branches for the CPU type, and the blue mode: no message of type CPU is ever sent in the default configuration.
- `already_send_free_cpu` and `marked_runon_idle` are never set in the default configuration.
- The nested maps of queues are one map keyed by type and index; reads that take no lock are atomic.
- The clock counts nanoseconds without the wrap of 64 bits; centerpoints are exact rationals.
- `dexit` is a halting step of the protocol, or a false result of a method.
- UssProtocol.Next: admits any supported queue and any legal move where the scheduler makes a choice, so its theorems cover more runs than the code has. Admission and removal are single steps beside the dispatcher thread, while the code takes and drops its mutexes several times inside them.
- The push loop advances an iterator that it has erased; the model starts from valid iterators.
- The address tables of the registration controller: live addresses are taken as distinct, and a duplicate ends the daemon.
- UssHandoff.HandOff: is for runs in which no job is removed before its dispatcher took the pending entry out; `UssHandoff.HandOffExact` shows that it fails in every other run.
- Waits that are killed, the CPU units, the renormalisation of virtual runtimes and the statistics of the hardware queues; order in the tree is by unbounded integers.
- KssLock.CfsRq.CuDown: is a call with nothing in between, stops where the caller falls asleep, and is for callers that are neither queued nor current, as the invariant of `KssSystem` guarantees; the states between its sections are in `KssSystem`.
- KssLock.CfsRq.CuUp: is a release with nothing in between; `KssSystem` interleaves its sections.
- KssLock.CfsRq.SetCapacity: is a change with nothing in between; `KssSystem` interleaves its sections.
- KssSystem.After: puts a task into the tree, takes it out or picks it in one step. A change of capacity that meets one of these half-way works on a tree under change, which is not modelled; nor are the counts of waiters and load after a second dequeue.
- KssSystem.Enabled: lets a granted task give up the mutex before it is listed as holder, so its theorems cover more runs than the code has; a called or granted task does not die before that. Capacities are not negative.
- KssTheorems.SlotsAccounted: is for careful runs; `KssTheorems.SoundRunsAreCareful` shows that every other run has a step that is not right.
- Deletion of an idle unit frees its mutex; the model drops it instead.
- The second balancing pass only makes offers; its mutexes are in the scripts, the offers are not.
- CUDA driver calls, the launch arithmetic and the stop condition of the kernel: it can skip the root of a perfect square, so only the compare-and-swap protocol is claimed.
- Square roots are exact; the result arrays start zeroed.
- Decoding with shifts and ors on disjoint bits is written as sums; the permuted access to the kernel's word array, and its thread indices, are left out.
- Md5Stream.Digester.Update: is for lengths whose loop test does not wrap; beyond them the code reads outside its input.
- A visitor of the task-group walk is a function of the group and its data; locking is left out.
- RtAdmission.AdmissionBounds: is for non-zero periods, as the callers check, and fewer than 2^44 children of a group.
- The rest of `sched.c`, system-call tables, the accelerator control tools and the device-list parser.
