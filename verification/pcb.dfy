/** The process control block of one job (`struct pcb`) and the changes the
    scheduler makes to a single record.

    The OS-facing parts of the record (pid, argument vector, status code) and
    the `next` link are not modelled: jobs live in an arena indexed by job id
    and queues hold ids.
 */
module Pcb {

  type JobId = nat

  datatype Job = Job(
    id: JobId,
    arrivalTime: int,
    serviceTime: int,
    initialPriority: int,
    priority: int,
    remainingCpuTime: int,
    timeInCurrentQuantum: int,
    timeAtCurrentLevel: int,
    totalWaitTime: int,
    startTime: int,
    completionTime: int,
    responseTime: int,
    lastReadyQueueEntryTime: int,
    lastEnqueuedTime: int)

  /** The priority read from the job file is forced into the three levels. */
  function ClampPriority(p: int): (r: int)
    ensures 0 <= r <= 2
    ensures 0 <= p <= 2 ==> r == p
    ensures p < 0 ==> r == 0
    ensures p > 2 ==> r == 2
  {
    if p < 0 then 0 else if p > 2 then 2 else p
  }

  /** The ready level a priority is queued at: 0, 1, and 2 for anything else. */
  function LevelOf(p: int): (k: int)
    ensures 0 <= k <= 2
    ensures 0 <= p <= 2 ==> k == p
  {
    if p == 0 then 0 else if p == 1 then 1 else 2
  }

  /** A record as built from one read of the job file. A fresh record has
      never been dispatched (start time -1) and has waited for nothing. */
  function NewJob(id: JobId, arrival: int, service: int, priority: int): (r: Job)
    ensures r.id == id && r.arrivalTime == arrival && r.serviceTime == service
    // the whole demand is still to run, at the clamped priority
    ensures r.remainingCpuTime == r.serviceTime
    ensures r.priority == r.initialPriority == ClampPriority(priority)
    // never dispatched, never waited
    ensures r.startTime < 0 && r.totalWaitTime == 0
  {
    var p := ClampPriority(priority);
    Job(id, arrival, service, p, p, service, 0, 0, 0, -1, 0, 0, 0, 0)
  }

  /** The fields that queue movements never touch: identity, the job's
      demand and what it has received, and the first-dispatch stamps. */
  predicate SameWork(a: Job, b: Job)
  {
    && a.id == b.id
    && a.arrivalTime == b.arrivalTime
    && a.serviceTime == b.serviceTime
    && a.initialPriority == b.initialPriority
    && a.remainingCpuTime == b.remainingCpuTime
    && a.totalWaitTime == b.totalWaitTime
    && a.startTime == b.startTime
    && a.completionTime == b.completionTime
    && a.responseTime == b.responseTime
  }

  /** A record entering a queue afresh at `timer` with priority `p`:
      both counters cleared and both timestamps set. */
  function Requeued(j: Job, p: int, timer: int): (r: Job)
    ensures SameWork(j, r)
    ensures r.priority == p
    ensures r.timeInCurrentQuantum == 0 && r.timeAtCurrentLevel == 0
    ensures r.lastReadyQueueEntryTime == timer && r.lastEnqueuedTime == timer
  {
    j.(priority := p, timeInCurrentQuantum := 0, timeAtCurrentLevel := 0,
       lastReadyQueueEntryTime := timer, lastEnqueuedTime := timer)
  }

  /** Admission from the arrival queue: the job starts at its initial priority. */
  function Admitted(j: Job, timer: int): Job
  {
    Requeued(j, j.initialPriority, timer)
  }

  /** Aging promotion to level 0. */
  function Promoted(j: Job, timer: int): Job
  {
    Requeued(j, 0, timer)
  }

  /** Preemption: only the ready-entry stamp moves; the aging stamp is kept,
      and the quantum is restarted except at level 2. */
  function Preempted(j: Job, timer: int): (r: Job)
    ensures SameWork(j, r)
    ensures r.priority == j.priority && r.timeAtCurrentLevel == j.timeAtCurrentLevel
    // the aging clock keeps running; only the ready-entry stamp moves
    ensures r.lastEnqueuedTime == j.lastEnqueuedTime && r.lastReadyQueueEntryTime == timer
    ensures r.timeInCurrentQuantum == (if j.priority == 2 then j.timeInCurrentQuantum else 0)
  {
    j.(timeInCurrentQuantum := if j.priority != 2 then 0 else j.timeInCurrentQuantum,
       lastReadyQueueEntryTime := timer)
  }

  /** Dispatch: the level counter survives only at level 1; the wait since the
      job last became ready is accrued; the first dispatch fixes start and
      response time. */
  function Dispatched(j: Job, timer: int): (r: Job)
    ensures r.id == j.id && r.arrivalTime == j.arrivalTime && r.serviceTime == j.serviceTime
    ensures r.initialPriority == j.initialPriority && r.priority == j.priority
    ensures r.remainingCpuTime == j.remainingCpuTime && r.completionTime == j.completionTime
    ensures r.timeInCurrentQuantum == j.timeInCurrentQuantum
    ensures r.lastReadyQueueEntryTime == j.lastReadyQueueEntryTime && r.lastEnqueuedTime == j.lastEnqueuedTime
    // the wait since the job last became ready is added to its total
    ensures r.totalWaitTime - j.totalWaitTime == timer - j.lastReadyQueueEntryTime
    ensures r.timeAtCurrentLevel == (if j.priority == 1 then j.timeAtCurrentLevel else 0)
    // response time is the delay from arrival to the first dispatch, fixed once set
    ensures j.startTime < 0 ==> r.startTime == timer && r.responseTime == r.startTime - r.arrivalTime
    ensures j.startTime >= 0 ==> r.startTime == j.startTime && r.responseTime == j.responseTime
  {
    var j1 := if j.priority != 1 then j.(timeAtCurrentLevel := 0) else j;
    var j2 := j1.(totalWaitTime := j1.totalWaitTime + timer - j1.lastReadyQueueEntryTime);
    if j2.startTime < 0 then j2.(startTime := timer, responseTime := timer - j2.arrivalTime) else j2
  }

  /** One tick of CPU: the level counter only advances at level 1. */
  function Consumed(j: Job): (r: Job)
    // one more tick of the demand has been served, and counted against the quantum
    ensures r.serviceTime - r.remainingCpuTime == j.serviceTime - j.remainingCpuTime + 1
    ensures r.timeInCurrentQuantum == j.timeInCurrentQuantum + 1
    ensures r.timeAtCurrentLevel == j.timeAtCurrentLevel + (if j.priority == 1 then 1 else 0)
    ensures r.id == j.id && r.arrivalTime == j.arrivalTime && r.serviceTime == j.serviceTime
    ensures r.initialPriority == j.initialPriority && r.priority == j.priority
    ensures r.totalWaitTime == j.totalWaitTime && r.startTime == j.startTime
    ensures r.responseTime == j.responseTime && r.completionTime == j.completionTime
    ensures r.lastReadyQueueEntryTime == j.lastReadyQueueEntryTime && r.lastEnqueuedTime == j.lastEnqueuedTime
  {
    j.(remainingCpuTime := j.remainingCpuTime - 1,
       timeInCurrentQuantum := j.timeInCurrentQuantum + 1,
       timeAtCurrentLevel := if j.priority == 1 then j.timeAtCurrentLevel + 1 else j.timeAtCurrentLevel)
  }

  /** The completion stamp. */
  function Completed(j: Job, timer: int): Job
  {
    j.(completionTime := timer)
  }

  /** A job promoted by aging and later dispatched is charged only the wait
      since its promotion: promotion restarts the ready-entry stamp. */
  lemma PromotedWait(j: Job, promoted: int, dispatched: int)
    ensures var r := Dispatched(Promoted(j, promoted), dispatched);
            r.totalWaitTime == j.totalWaitTime + (dispatched - promoted)
  {
  }

  /** A preempted job later dispatched again is charged the wait since its
      preemption, and keeps its first-dispatch stamps. */
  lemma PreemptedWait(j: Job, preempted: int, dispatched: int)
    requires j.startTime >= 0
    ensures var r := Dispatched(Preempted(j, preempted), dispatched);
            && r.totalWaitTime == j.totalWaitTime + (dispatched - preempted)
            && r.startTime == j.startTime && r.responseTime == j.responseTime
  {
  }
}
