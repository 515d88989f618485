# MLQ scheduler engine in Dafny

A model of the scheduling engine of the MLQ scheduler (`mlq.c`): a
three-level feedback-queue scheduler driven by a discrete tick counter.
Jobs wait in an arrival queue sorted by arrival time. When they arrive
they are admitted to ready level 0, 1 or 2 according to their initial
priority. From there they are aged, preempted, dispatched, charged one
tick of CPU at a time, completed, or demoted.

The model is functional. The job records (`struct pcb`) are immutable
values in an arena `map<JobId, Job>`. Each queue is a `seq<JobId>`. One
iteration of the main loop is the pure function `Mlq.Tick`. The loop
itself is `Mlq.Run`.

Modules, one per file:

- `Queues` (queues.dfy): `enqueue_tail`, `enqueue_front`, `append_queue`
  and pop-head as sequence operations.
- `Pcb` (pcb.dfy): the job record, priority clamping, and the changes
  each phase makes to a single record.
- `Mlq` (mlq.dfy): the scheduler state and each phase of a tick.
  - Admission, aging, preemption and dispatch.
  - Consuming a tick, completion, quantum expiry.
  - The idle branch and the loop.
  - Well-formedness: every id a queue refers to has a record, and no id
    is in two places.
- `MlqInvariants` (invariants.dfy): the invariants every tick keeps.
  - Each live job is in exactly one place.
  - Priorities stay in {0,1,2}, and each ready job sits in its own level.
  - The metric totals are the sums over the completed jobs.
  - The loop's idle `break` can never be taken.
  - The whole loop keeps them, so a loop that finishes has completed
    every job and the totals are the sums over all of them.
- `MlqTermination` (termination.dfy): a measure that every continuing
  tick lowers. So the loop ends after at most that many ticks.
- `Arrivals` (arrivals.dfy): start-up.
  - The arrival queue's sorted insert.
  - Building the jobs from the successful reads of the job file.
  - Refusing a job file with no job.
  - Proof that the start state meets the invariants.
- `MlqFairness` (fairness.dfy): no job waits W ticks or more in level 1
  or 2.
  - Aging looks only at the head of level 1 and of level 2.
  - Every level is kept in order of the jobs' aging stamps
    (`last_enqueued_time`), so the head has waited longest.
  - Hence after the aging check every waiting job in those levels has
    waited less than W ticks.
- `MlqIdentity` (identity.dfy): no phase invents, duplicates or alters
  a job.
  - The start-up arena is the book of jobs.
  - Every live record is stored under its own id, and keeps the book's
    arrival time, service time and initial priority.
  - Every completed job's record is released once, under its own id.
  - So a loop that finishes has released every job of the book exactly
    once.
- `MlqSimulation` (simulation.dfy): start-up followed by the main loop.
  - A run that finishes has completed as many jobs as were read.
  - Its released records are the jobs read, each once: ids 1 to the
    number of reads, and record `n` carries the arrival time, service
    time and clamped priority of the `n`-th read.
  - A run with no failing suspension and enough turns does finish.

Outside effects are parameters:

- Suspending a process can fail. The set `stuck` of type `Failures`
  names each failing `suspendPcb` call by its job and the clock at the
  call. A job is suspended at most once per tick, so any pattern of
  failures is such a set, including a job that fails after an earlier
  suspension succeeded. A failure ends the simulation with an `Abort`
  outcome.
- Start and terminate have no effect on the scheduler state.
- `sleep` is dropped.

## Model

| member | source | states |
|---|---|---|
| Queues.EnqueueTail | mlq.c:17-32 | the queue grows by one at the tail: the old queue is the prefix and the job the last element; the contents grow by exactly that job |
| Queues.EnqueueFront | mlq.c:34-41 | the job becomes the head and the old queue follows unchanged |
| Queues.AppendQueue | mlq.c:43-59 | the destination becomes `dest` followed by `src` in its original order, the source is left empty, and nothing is lost or added; an empty source leaves the destination unchanged |
| Queues.Dequeue | pcb.h:63 | pop-head fails exactly on an empty queue; otherwise head and rest put back together give the queue |
| Queues.FifoOrder | mlq.c:17-32 | a job enqueued at the tail does not overtake: dequeuing still yields the old head first |
| Queues.FrontIsNext | mlq.c:34-41 | a job put at the front is the next one dequeued, and the rest is untouched |
| Queues.DequeueFrontRoundTrip | mlq.c:118-132 | taking the head and putting it back at the front restores the queue |
| Pcb.ClampPriority | mlq.c:214-218 | the clamped priority is in {0,1,2}; it is the input when the input is in range, 0 below and 2 above |
| Pcb.LevelOf | mlq.c:248-254 | the level a priority routes to is in {0,1,2}, and is the priority itself for 0, 1 and 2 |
| Pcb.NewJob | mlq.c:202-226 | a record read from the file has its whole service time still to run, its clamped priority as both initial and current priority, has never been dispatched (negative start time) and has waited for nothing |
| Pcb.Requeued | mlq.c:102-116 | entering a queue afresh keeps the job's work and first-dispatch stamps, sets the new priority, clears both counters and stamps both entry times with the current tick |
| Pcb.Preempted | mlq.c:118-132 | preemption keeps the job's work, priority and level counter; the aging stamp is kept and only the ready-entry stamp moves; the quantum counter survives only at priority 2 |
| Pcb.Dispatched | mlq.c:75-88 | dispatch charges the wait since the job last became ready; start and response time are set on the first dispatch only, with response = start - arrival; the level counter survives only at priority 1 (the reset at mlq.c:283-285); no other field changes |
| Pcb.Consumed | mlq.c:302-306 | a tick of CPU serves one more unit of the demand and counts against the quantum; the level counter advances only at priority 1; nothing else changes |
| Pcb.PromotedWait | mlq.c:61-88 | a job promoted by aging and then dispatched is charged only the wait since the promotion, because promotion restamps `last_ready_queue_entry_time` |
| Pcb.PreemptedWait | mlq.c:118-132 | a preempted job dispatched again is charged the wait since the preemption and keeps its start and response times |
| Mlq.AdmitOne | mlq.c:239-255 | one admission removes the arrival-queue head, restarts its record at its initial priority with both counters 0 and both stamps at `timer`, and appends it to exactly the level that priority names |
| Mlq.Admit | mlq.c:239-255 | admission stops only when the arrival-queue head has not arrived; it changes no record's work, the CPU, the clock or the metrics |
| Mlq.AdmitTakesDuePrefix | mlq.c:239 | admission removes exactly the longest prefix of the arrival queue whose jobs have arrived, and leaves the rest in order |
| Mlq.AdmitRoutes | mlq.c:248-254 | each level becomes itself followed by the admitted jobs that route to it, in arrival-queue order |
| Mlq.AdmitRecords | mlq.c:241-245 | exactly the admitted jobs get the admission reset; every other record is unchanged |
| Mlq.RoutedPartition | mlq.c:248-254 | every admitted job goes to exactly one of the three levels |
| Mlq.AdmitKeepsPlaces | mlq.c:239-255 | admission moves jobs without losing or duplicating any: the bag of placed jobs is unchanged |
| Mlq.PromoteAll | mlq.c:61-73 | exactly the jobs of the promoted queue get priority 0, both counters 0 and both stamps at `timer`; all other records are unchanged |
| Mlq.Upgrade | mlq.c:61-73 | a promoted level is appended to level 0 in order and left empty, with its jobs' records promoted; nothing else moves |
| Mlq.Age | mlq.c:257-270 | aging keeps every job in exactly one place and no record's work changes; afterwards the level-2 head, if any, has waited less than W |
| Mlq.AgeLevels | mlq.c:257-270 | a starved level-1 head promotes level 1 and then level 2; otherwise a starved level-2 head promotes level 2 alone; the order of level 0 and of the promoted queues is kept |
| Mlq.AgeRecords | mlq.c:61-73 | after aging, exactly the jobs of the promoted levels have promoted records |
| Mlq.AgeSpec | mlq.c:257-270 | the closed form of aging: both the resulting levels and the resulting records |
| MlqInvariants.AgeClearsStarvation | mlq.c:257-270 | after aging, neither the level-1 head nor the level-2 head has waited W ticks or more |
| Mlq.PreemptToFront | mlq.c:118-132 | a job that cannot be suspended aborts the run. Otherwise the job goes to the front of its own level and the CPU becomes idle. Its ready-entry stamp becomes `timer`. Its aging stamp and level counter are kept. Its quantum counter is reset unless its priority is 2 |
| Mlq.MustYieldIffHigherWaits | mlq.c:272-278 | a running job must yield exactly when some level of higher priority than its own holds a job |
| Mlq.Preempt | mlq.c:272-278 | the running job is preempted exactly when it has priority 1 and level 0 is non-empty, or priority 2 and level 0 or 1 is non-empty; otherwise the state is unchanged |
| Mlq.SelectNext | mlq.c:134-146 | nothing is selected exactly when all three levels are empty; otherwise the head of the first non-empty level is selected, and every higher level is empty |
| Mlq.Dispatch | mlq.c:280-288 | dispatch happens only with the CPU idle. The CPU stays idle only when all three levels are empty. The head of level 0 is taken if there is one, else that of level 1, else that of level 2. The levels below the one taken are untouched |
| Mlq.StartHead | mlq.c:280-287 | the head of the chosen level leaves it and becomes the running job with its record updated for dispatch; the other levels, the clock and the totals are untouched |
| Mlq.DispatchRecord | mlq.c:75-88 | the dispatched record accrues `timer - last_ready_queue_entry_time` of waiting. Its level counter is reset unless its priority is 1. Start time and response time `timer - arrival` are set only when the start time is negative. No other field changes |
| Mlq.Advance | mlq.c:294-296 | the idle branch only advances the clock by one |
| Mlq.Consume | mlq.c:299-306 | the clock advances by one. The running job's remaining time drops by exactly one and its quantum counter rises by one. Its level counter rises only at priority 1. No other record, queue or total changes |
| Mlq.Complete | mlq.c:90-100 | the completed job leaves the CPU and the arena; its record, stamped with the completion time, is appended to the released records; `completed_jobs` rises by one and the totals by its turnaround, waiting and response times |
| Mlq.DemoteToLevel | mlq.c:102-116 | a job that cannot be suspended aborts the run. Otherwise the job goes to the tail of the target level with the target priority. Both counters become 0 and both stamps become `timer`. The CPU becomes idle and nothing else moves |
| Mlq.Expire | mlq.c:313-331 | no expiry leaves the state unchanged. Priority 0 with `t0 > 0` and quantum counter `>= t0` demotes to level 1. Priority 1 with `t1 > 0` and level counter `>= t1` demotes to level 2. Priority 2 with `t2 > 0` and quantum counter `>= t2` requeues at the tail of level 2 |
| Mlq.ExpiredIffUsedUp | mlq.c:313-331 | a job at level k has run out exactly when that level's limit is positive and the job has used that much: the quantum counter at levels 0 and 2, the level counter at level 1 |
| Mlq.RequeuedNotExpired | mlq.c:102-116 | a job just put back in a queue has used nothing and is not expired |
| Mlq.Settle | mlq.c:308-331 | a job with no CPU time left completes before any expiry check; only a job that did not complete is checked for expiry |
| Mlq.Prepare | mlq.c:239-270 | admission and aging together remove exactly the due prefix of the arrival queue and leave a head that has not arrived, with every job still in exactly one place |
| Mlq.Proceed | mlq.c:290-331 | the loop stops exactly when the CPU is idle and no queue holds a job; otherwise the clock advances by one |
| Mlq.Tick | mlq.c:238-333 | one iteration keeps the state well formed. It stops only with nothing left to schedule and otherwise advances the clock by one. It never creates jobs, releases at most one record and keeps the job count |
| Mlq.Run | mlq.c:238 | when the loop finishes, nothing is running and all four queues are empty |
| Mlq.TickAbortCause | mlq.c:272-331 | an iteration aborts only on a failed suspension of the job it names: at the current tick when preemption suspends it, at the next tick when quantum expiry does |
| Mlq.RunWithoutFailures | mlq.c:238-333 | when every suspension succeeds the loop never aborts |
| MlqInvariants.Apart | mlq.c:238-333 | in a well-formed state a job is in at most one of the arrival queue, the levels and the CPU |
| MlqInvariants.Somewhere | mlq.c:238-333 | under the invariant every live job is in exactly one place |
| MlqInvariants.AdmitRanked | mlq.c:239-255 | after admission every priority is still in {0,1,2} and every ready job is in the level its priority names |
| MlqInvariants.AgeRanked | mlq.c:257-270 | after aging every ready job is still in the level its priority names |
| MlqInvariants.PrepareKeepsInv | mlq.c:239-270 | admission and aging keep all three invariants |
| MlqInvariants.PreemptKeepsInv | mlq.c:272-278 | preemption keeps all three invariants |
| MlqInvariants.DispatchKeepsInv | mlq.c:280-288 | dispatch keeps all three invariants |
| MlqInvariants.DispatchLeavesRest | mlq.c:134-146 | dispatch only removes jobs from the levels; it never adds one |
| MlqInvariants.ConsumeKeepsInv | mlq.c:299-306 | consuming a tick keeps all three invariants |
| MlqInvariants.CompleteKeepsInv | mlq.c:90-100 | completion keeps all three invariants; the totals stay the sums over the released records |
| MlqInvariants.DemoteKeepsInv | mlq.c:102-116 | demotion or requeueing keeps all three invariants |
| MlqInvariants.SettleKeepsInv | mlq.c:308-331 | completion or expiry keeps all three invariants |
| MlqInvariants.ProceedKeepsInv | mlq.c:290-331 | the rest of a tick after dispatch keeps all three invariants |
| MlqInvariants.TickKeepsInv | mlq.c:238-333 | every iteration of the main loop keeps all three invariants |
| MlqInvariants.ActiveIffPlaced | mlq.c:238 | the loop guard holds exactly when some job is in some place |
| MlqInvariants.TickNeverHalts | mlq.c:290-293 | from a well-formed state the loop guard admits, the idle `break` is never taken |
| MlqInvariants.RunKeepsInv | mlq.c:238-333 | unless it aborts, the whole loop keeps all three invariants and the job count |
| MlqInvariants.DoneMeansAllCompleted | mlq.c:238 | when the loop guard fails no record is live and the completed count equals the total job count and the number of released records |
| MlqInvariants.RunCompletesAll | mlq.c:238-333 | a loop that finishes has no live record, its completed count and the number of released records equal the job count it started with, and the turnaround, waiting and response totals are the sums over the released records; which jobs those are is MlqIdentity.RunReleasesEveryJob |
| MlqIdentity.IdsSnoc | mlq.c:90-100 | appending a released record adds exactly its id to the released ids |
| MlqIdentity.CompleteIdentity | mlq.c:90-100 | completion moves the running record out of the arena into the released records under the id it was stored under, keeping every id once |
| MlqIdentity.DispatchIdentity | mlq.c:280-288 | dispatch keeps every record under its own id with its arrival time, service time and initial priority |
| MlqIdentity.DemoteIdentity | mlq.c:102-116 | demotion and requeueing keep every record under its own id with its identity fields |
| MlqIdentity.SettleIdentity | mlq.c:308-331 | completion or expiry keeps the live and released records together equal to the book, each job once |
| MlqIdentity.TickIdentity | mlq.c:238-333 | every iteration of the main loop that does not abort keeps the live and released records together equal to the book, each job once, with unchanged identity fields |
| MlqIdentity.RunIdentity | mlq.c:238-333 | unless it aborts, the whole loop keeps the live and released records together equal to the book, each job once |
| MlqIdentity.RunReleasesEveryJob | mlq.c:238-333 | a loop that finishes has released every job of the book exactly once: the released ids are the book's ids, pairwise distinct, and each released record has its book entry's arrival time, service time and initial priority |
| MlqTermination.PrepareMeasure | mlq.c:239-270 | admission and aging never raise the work left |
| MlqTermination.PreemptMeasure | mlq.c:272-278 | preemption keeps the work left |
| MlqTermination.DispatchMeasure | mlq.c:280-288 | dispatch keeps the work left |
| MlqTermination.ConsumeMeasure | mlq.c:299-306 | a consumed tick never raises the work left, and lowers it while the job still has time left |
| MlqTermination.SettleMeasure | mlq.c:308-331 | completion strictly lowers the work left, and expiry keeps it |
| MlqTermination.IdleMeasure | mlq.c:290-297 | an idle tick with jobs still to arrive brings the next arrival closer |
| MlqTermination.TickProgress | mlq.c:238-333 | every iteration that goes on strictly lowers the work left |
| MlqTermination.RunTerminates | mlq.c:238-333 | the loop finishes or aborts within one more iteration than the work left in its start state |
| Arrivals.InsertByArrival | pcb.h:62 | the sorted insert adds exactly the new job to the arrival queue |
| Arrivals.InsertSplices | pcb.h:62 | the new job goes in just after the jobs that arrive no later than it, and the other jobs keep their order |
| Arrivals.InsertSorted | pcb.h:62 | the insert keeps the arrival queue in ascending arrival-time order |
| Arrivals.Parsed | mlq.c:198-212 | a read that does not convert three integers yields no record and uses no id; every read that does yields its record, in file order |
| Arrivals.ParsedAppend | mlq.c:198-212 | the records of two stretches of reads are those of the first followed by those of the second |
| Arrivals.Records | mlq.c:214-226 | job ids run from 1 to the number of jobs read, and each record holds its read's values with the priority clamped |
| Arrivals.Enqueued | mlq.c:228 | after start-up the arrival queue holds every job exactly once |
| Arrivals.EnqueuedSorted | mlq.c:228 | after start-up the arrival queue is in ascending arrival-time order |
| Arrivals.Load | mlq.c:198-236 | a job file with no successful read is refused. Otherwise the start state holds jobs 1 to n built from the n successful reads. The clock is 0 and the total job count is n |
| Arrivals.LoadEstablishesInv | mlq.c:157-236 | the start state meets all three invariants, and its arrival queue is sorted |
| Arrivals.SortedAdmitsAllDue | mlq.c:239-255 | from a sorted arrival queue, admission takes every job that has arrived by the current tick |
| MlqFairness.StampedAppend | mlq.c:17-32 | jobs stamped with the current tick can join the tail of a level without breaking its stamp order |
| MlqFairness.StampedCons | mlq.c:34-41 | a job whose stamp is no later than any in a level can go to its front without breaking the order |
| MlqFairness.HeadOldest | mlq.c:258-268 | in a level in stamp order the head has the oldest stamp, and the rest stays in order |
| MlqFairness.AdmitLevelFair | mlq.c:240-254 | admission appends jobs stamped with the current tick, so every level stays in stamp order |
| MlqFairness.AdmitRunningFair | mlq.c:240-254 | admission leaves the running job's record alone, and it keeps the oldest stamp of its level |
| MlqFairness.AdmitFair | mlq.c:240-254 | admission keeps all levels in stamp order |
| MlqFairness.AgeLevel0Fair | mlq.c:61-73 | aging appends the promoted jobs to level 0 stamped with the current tick, keeping level 0 in stamp order |
| MlqFairness.AgeKeptFair | mlq.c:257-270 | a level that aging does not empty keeps its jobs, their stamps and their order |
| MlqFairness.AgeFair | mlq.c:257-270 | aging keeps all levels in stamp order |
| MlqFairness.PreemptFair | mlq.c:118-132 | preemption puts the job back at the front of its level with its old stamp, which is the oldest there |
| MlqFairness.DispatchFair | mlq.c:134-146 | dispatch takes the head, the job with the oldest stamp, and the rest of the level stays in order |
| MlqFairness.ConsumeFair | mlq.c:299-306 | a consumed tick changes no stamp, and the clock only moves on |
| MlqFairness.CompleteFair | mlq.c:90-100 | completion touches no level |
| MlqFairness.DemoteFair | mlq.c:102-116 | demotion appends the job at the tail stamped with the current tick |
| MlqFairness.SettleFair | mlq.c:308-331 | completion or expiry keeps all levels in stamp order |
| MlqFairness.ProceedFair | mlq.c:290-331 | the idle tick and the run tick keep all levels in stamp order |
| MlqFairness.TickFair | mlq.c:239-332 | every iteration of the main loop keeps all levels in stamp order |
| MlqFairness.StarvedIffAnyWaited | mlq.c:257-270 | on a level in stamp order the head has waited W ticks exactly when some job of the level has, so the head-only check finds every starving job |
| MlqFairness.NoneStarved | mlq.c:257-270 | after the aging check, every job in level 1 or 2 has waited less than W ticks since it joined its level, not just the heads the check looks at |
| MlqFairness.NoStarvationInTick | mlq.c:239-270 | in every iteration, once admission and aging are done, no job in level 1 or 2 has waited W ticks or more |
| MlqFairness.LoadFair | mlq.c:198-236 | the start state is in stamp order |
| MlqSimulation.LoadedRunCompletesAll | mlq.c:198-333 | from the start state, a run that finishes has completed as many jobs as were read and released that many records; with no failing suspension and more turns than the start state's measure, the run finishes |
| MlqSimulation.LoadedRunReleasesReads | mlq.c:198-333 | from the start state, a run that finishes has released exactly the jobs read: the released ids are 1 to the number of reads that converted three integers, no id twice, and the record with id `n` has the arrival time, service time and clamped priority of the `n`-th such read |
| MlqSimulation.RunReleasesReads | mlq.c:238-333 | from an arena holding record `n` for the `n`-th entry and nothing else, a run that finishes has released each entry once, carrying its arrival time, service time and clamped priority |
| MlqSimulation.LoadIdentity | mlq.c:198-228 | at start-up every record is stored under its own id, nothing is released, and the ids are 1 to the number of reads that converted three integers |
| MlqSimulation.OnceAsRead | mlq.c:209-226 | records released once from an arena loaded from a list of entries carry the arrival time, service time and clamped priority of the entry their id names |

## Left out

- Argument checks, the prompts for t0, t1, t2 and W, and opening and
  reading the job file (mlq.c:161-199) are I/O. The model accepts any
  four integers for t0, t1, t2 and W, and every result holds for all of
  them. The job file comes in as the outcomes of the successive reads:
  a record, or `None` for a read that converts fewer than three integers.
- Arrivals.Parsed: the sequence of read outcomes is finite, so the model
  covers only job files on which the read loop ends. A read that fails
  without consuming input, such as one at a letter, is repeated forever
  by the `continue` at mlq.c:211.
- `sleep(1)` (mlq.c:294, mlq.c:299) is pacing with no effect on the
  schedule.
- `startPcb`, `suspendPcb` and `terminatePcb` wrap OS processes and are
  not part of this model.
  - Start and terminate have no effect on the state.
  - Suspend failure is the `stuck` parameter, keyed by job and tick,
    which leads to an `Abort` outcome.
  - `createnullPcb` is not part of this model. A fresh record is taken
    to have start time -1 and every other field 0, which is what the
    first-dispatch test at mlq.c:83 relies on.
- `enqPcb` and `deqPcb` are not part of this model. They are modelled
  by their contract. The arrival queue is kept in ascending
  arrival-time order, and a job with the same arrival time as queued
  jobs goes after them.
- The `status` field and the `pid` are informational and are omitted.
  So is the allocation failure at mlq.c:204-207.
- The averages printed at mlq.c:335-339 are floating point, and so are
  the totals they divide (`double` fields, mlq.c:9-11). The model keeps
  exact integer sums of the values the source adds into those doubles.
  The two agree while each sum stays below 2^53.
- Mlq.Run takes a fuel bound because the loop is not structurally
  recursive. MlqTermination.RunTerminates shows that fuel one more than
  the measure of the start state always suffices.
- Mlq.Tick: integers are unbounded, so a 32-bit overflow of the clock
  or of the totals is not modelled.
- Mlq.Complete: the completed record is kept in `released` instead of
  being freed, so that the totals can be related to the completed jobs.

A note on the source: aging stamps a promoted job's
`last_ready_queue_entry_time` with the current tick
(mlq.c:61-73). So the time a job spent waiting in level 1 or 2 before a
promotion is never added to its `total_wait_time`. The model keeps this
behaviour as written.
