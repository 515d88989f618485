/** The main loop terminates.

    Every iteration that goes on either lets a job consume a tick of CPU or,
    with nothing ready, lets the clock move towards the next arrival. The
    measure is the CPU still owed to the live jobs (each live job counts
    one more than its remaining time, so completing a job also counts)
    plus the number of ticks until the latest pending arrival.
 */
module MlqTermination {
  import opened Queues
  import opened Pcb
  import opened Mlq

  // ---------------------------------------------------------------------
  // Outstanding CPU demand

  /** What a live job still costs: its remaining time, and one for leaving. */
  function Demand(j: Job): nat
  {
    if j.remainingCpuTime > 0 then j.remainingCpuTime + 1 else 1
  }

  /** The demand of the records of `ks`, summed. */
  ghost function Owed(jobs: map<JobId, Job>, ks: set<JobId>): nat
    requires ks <= jobs.Keys
    decreases ks
  {
    if ks == {} then 0 else var x :| x in ks; Demand(jobs[x]) + Owed(jobs, ks - {x})
  }

  /** Any member of the set can be summed first. */
  lemma {:induction false} OwedRemove(jobs: map<JobId, Job>, ks: set<JobId>, x: JobId)
    requires ks <= jobs.Keys && x in ks
    ensures Owed(jobs, ks) == Demand(jobs[x]) + Owed(jobs, ks - {x})
    decreases ks
  {
    var y :| y in ks && Owed(jobs, ks) == Demand(jobs[y]) + Owed(jobs, ks - {y});
    if y != x {
      OwedRemove(jobs, ks - {y}, x);
      OwedRemove(jobs, ks - {x}, y);
      assert ks - {y} - {x} == ks - {x} - {y};
    }
  }

  /** The sum only depends on the demands of its members. */
  lemma {:induction false} OwedFrame(a: map<JobId, Job>, b: map<JobId, Job>, ks: set<JobId>)
    requires ks <= a.Keys && ks <= b.Keys
    requires forall x :: x in ks ==> Demand(a[x]) == Demand(b[x])
    ensures Owed(a, ks) == Owed(b, ks)
    decreases ks
  {
    if ks != {} {
      var x :| x in ks;
      OwedRemove(a, ks, x);
      OwedRemove(b, ks, x);
      OwedFrame(a, b, ks - {x});
    }
  }

  /** The demand still owed to every live job. */
  ghost function Outstanding(s: State): nat
  {
    Owed(s.jobs, s.jobs.Keys)
  }

  // ---------------------------------------------------------------------
  // Ticks until the latest pending arrival

  /** The number of ticks from `timer` until the latest arrival in `q`, or
      0 when every job of `q` has arrived. */
  function Lag(jobs: map<JobId, Job>, q: seq<JobId>, timer: int): (n: nat)
    requires forall x :: x in q ==> x in jobs
    ensures forall i :: 0 <= i < |q| ==> jobs[q[i]].arrivalTime - timer <= n
    ensures n == 0 || exists i :: 0 <= i < |q| && n == jobs[q[i]].arrivalTime - timer
    decreases |q|
  {
    if q == [] then 0
    else
      var d := jobs[q[0]].arrivalTime - timer;
      var l := Lag(jobs, q[1..], timer);
      assert forall i :: 1 <= i < |q| ==> q[i] == q[1..][i - 1];
      if d > l then d else l
  }

  /** Dropping a prefix of the queue never makes the lag longer. */
  lemma LagSuffix(jobs: map<JobId, Job>, p: seq<JobId>, q: seq<JobId>, timer: int)
    requires forall x :: x in p + q ==> x in jobs
    ensures Lag(jobs, q, timer) <= Lag(jobs, p + q, timer)
  {
    var l := Lag(jobs, q, timer);
    if l > 0 {
      var i :| 0 <= i < |q| && l == jobs[q[i]].arrivalTime - timer;
      assert (p + q)[|p| + i] == q[i];
    }
  }

  /** The lag only depends on the arrival times. */
  lemma LagFrame(a: map<JobId, Job>, b: map<JobId, Job>, q: seq<JobId>, timer: int)
    requires forall x :: x in q ==> x in a && x in b && a[x].arrivalTime == b[x].arrivalTime
    ensures Lag(a, q, timer) == Lag(b, q, timer)
  {
    var la, lb := Lag(a, q, timer), Lag(b, q, timer);
    if la > 0 {
      var i :| 0 <= i < |q| && la == a[q[i]].arrivalTime - timer;
    }
    if lb > 0 {
      var i :| 0 <= i < |q| && lb == b[q[i]].arrivalTime - timer;
    }
  }

  /** A tick of the clock never makes the lag longer, and shortens it when
      the head has not arrived. */
  lemma LagTick(jobs: map<JobId, Job>, q: seq<JobId>, timer: int)
    requires forall x :: x in q ==> x in jobs
    ensures Lag(jobs, q, timer + 1) <= Lag(jobs, q, timer)
    ensures q != [] && jobs[q[0]].arrivalTime > timer ==> Lag(jobs, q, timer + 1) < Lag(jobs, q, timer)
  {
    var l1 := Lag(jobs, q, timer + 1);
    if l1 > 0 {
      var i :| 0 <= i < |q| && l1 == jobs[q[i]].arrivalTime - timer - 1;
    }
  }

  // ---------------------------------------------------------------------
  // The measure

  /** Ticks of work left: CPU owed to live jobs plus ticks until the latest
      pending arrival. */
  ghost function Measure(s: State): nat
    requires ArrivalsKnown(s)
  {
    Outstanding(s) + Lag(s.jobs, s.arrivals, s.timer)
  }

  /** Two arenas with the same jobs, remaining times and arrival times. */
  predicate SameDemand(a: map<JobId, Job>, b: map<JobId, Job>)
  {
    && a.Keys == b.Keys
    && forall x :: x in a ==>
         a[x].remainingCpuTime == b[x].remainingCpuTime && a[x].arrivalTime == b[x].arrivalTime
  }

  /** Moving jobs between places, with no record's demand or arrival time
      changed and no arrival admitted, keeps the measure. */
  lemma MeasureKept(s: State, r: State)
    requires ArrivalsKnown(s) && ArrivalsKnown(r)
    requires SameDemand(s.jobs, r.jobs) && r.arrivals == s.arrivals && r.timer == s.timer
    ensures Measure(r) == Measure(s)
  {
    OwedFrame(s.jobs, r.jobs, s.jobs.Keys);
    LagFrame(s.jobs, r.jobs, s.arrivals, s.timer);
  }

  /** Admission and aging never increase the measure, and leave a head of
      the arrival queue that has not arrived. */
  lemma PrepareMeasure(cfg: Config, s: State)
    requires Wf(s)
    ensures Measure(Prepare(cfg, s)) <= Measure(s)
  {
    PrepareOwes(cfg, s);
    PrepareLag(cfg, s);
  }

  /** Admission and aging leave every job's demand as it was. */
  lemma PrepareOwes(cfg: Config, s: State)
    requires Wf(s)
    ensures Outstanding(Prepare(cfg, s)) == Outstanding(s)
  {
    var r := Prepare(cfg, s);
    SameArenaDemand(s.jobs, r.jobs);
    OwedFrame(s.jobs, r.jobs, s.jobs.Keys);
  }

  /** Admission only removes arrivals, so the lag does not grow. */
  lemma PrepareLag(cfg: Config, s: State)
    requires Wf(s)
    ensures Lag(Prepare(cfg, s).jobs, Prepare(cfg, s).arrivals, s.timer) <= Lag(s.jobs, s.arrivals, s.timer)
  {
    var r := Prepare(cfg, s);
    var p := DuePrefix(s.jobs, s.arrivals, s.timer);
    SameArenaDemand(s.jobs, r.jobs);
    LagSuffix(s.jobs, p, r.arrivals, s.timer);
    LagFrame(s.jobs, r.jobs, r.arrivals, s.timer);
  }

  /** Records with the same work have the same demand and arrival time. */
  lemma SameArenaDemand(a: map<JobId, Job>, b: map<JobId, Job>)
    requires SameArena(a, b)
    ensures SameDemand(a, b)
  {
    forall x | x in a
      ensures a[x].remainingCpuTime == b[x].remainingCpuTime && a[x].arrivalTime == b[x].arrivalTime
    {
      assert SameWork(a[x], b[x]);
    }
  }

  /** Preemption keeps the measure. */
  lemma PreemptMeasure(s: State, stuck: Failures)
    requires Wf(s)
    ensures Preempt(s, stuck).Next? ==> Measure(Preempt(s, stuck).state) == Measure(s)
  {
    var r := Preempt(s, stuck);
    if r.Next? {
      MeasureKept(s, r.state);
    }
  }

  /** Dispatch keeps the measure. */
  lemma DispatchMeasure(s: State)
    requires Wf(s)
    ensures Measure(Dispatch(s)) == Measure(s)
  {
    if s.running.None? {
      DispatchRecord(s);
    }
    MeasureKept(s, Dispatch(s));
  }

  /** Running the job for a tick lowers its demand by one, unless it had
      none left to give. */
  lemma ConsumeMeasure(s: State)
    requires Wf(s) && s.running.Some?
    ensures Measure(Consume(s)) <= Measure(s)
    ensures Consume(s).jobs[s.running.value].remainingCpuTime > 0 ==> Measure(Consume(s)) < Measure(s)
  {
    var r := Consume(s);
    var id := s.running.value;
    assert Demand(r.jobs[id]) <= Demand(s.jobs[id]);
    ConsumeOwes(s);
    LagFrame(s.jobs, r.jobs, s.arrivals, s.timer + 1);
    LagTick(s.jobs, s.arrivals, s.timer);
  }

  /** Consuming a tick only changes the running job's demand. */
  lemma ConsumeOwes(s: State)
    requires Wf(s) && s.running.Some?
    ensures var id := s.running.value;
            Outstanding(Consume(s)) + Demand(s.jobs[id]) == Outstanding(s) + Demand(Consume(s).jobs[id])
  {
    var r := Consume(s);
    var id := s.running.value;
    forall x | x in s.jobs - {id}
      ensures Demand(s.jobs[x]) == Demand(r.jobs[x])
    {
      assert r.jobs[x] == s.jobs[x];
    }
    OwedRemove(s.jobs, s.jobs.Keys, id);
    OwedRemove(r.jobs, r.jobs.Keys, id);
    assert s.jobs.Keys - {id} == r.jobs.Keys - {id};
    OwedFrame(s.jobs, r.jobs, s.jobs.Keys - {id});
  }

  /** Completion removes the job and its demand; expiry only moves it. */
  lemma SettleMeasure(cfg: Config, stuck: Failures, s: State)
    requires Wf(s) && s.running.Some?
    ensures Settle(cfg, stuck, s).Next? ==> Measure(Settle(cfg, stuck, s).state) <= Measure(s)
    ensures s.jobs[s.running.value].remainingCpuTime <= 0 ==> Measure(Settle(cfg, stuck, s).state) < Measure(s)
    ensures s.jobs[s.running.value].remainingCpuTime > 0 && Settle(cfg, stuck, s).Next? ==>
              Measure(Settle(cfg, stuck, s).state) == Measure(s)
  {
    var id := s.running.value;
    var j := s.jobs[id];
    if j.remainingCpuTime <= 0 {
      var r := Complete(s);
      OwedRemove(s.jobs, s.jobs.Keys, id);
      assert r.jobs.Keys == s.jobs.Keys - {id};
      OwedFrame(s.jobs, r.jobs, r.jobs.Keys);
      PlacedByLevel(s);
      forall x | x in s.arrivals ensures x != id {
        assert multiset(s.arrivals)[x] >= 1 && multiset(RunningSeq(s))[id] == 1;
        assert Placed(s)[id] <= multiset(s.jobs.Keys)[id] <= 1;
      }
      LagFrame(s.jobs, r.jobs, s.arrivals, s.timer);
    } else {
      var r := Settle(cfg, stuck, s);
      if r.Next? && Expired(cfg, j) {
        MeasureKept(s, r.state);
      }
    }
  }

  /** With nothing to run, the clock moves towards the pending arrival. */
  lemma IdleMeasure(c: State)
    requires Wf(c) && c.running.None? && c.level0 == [] && c.level1 == [] && c.level2 == []
    requires c.arrivals != [] && !Due(c)
    ensures Measure(Advance(c)) < Measure(c)
  {
    LagTick(c.jobs, c.arrivals, c.timer);
  }

  // ---------------------------------------------------------------------
  // The loop terminates

  /** The part of an iteration after dispatch lowers the measure whenever
      the loop goes on. */
  lemma ProceedProgress(cfg: Config, stuck: Failures, c: State)
    requires Wf(c)
    requires c.running.None? ==> c.level0 == [] && c.level1 == [] && c.level2 == [] && !Due(c)
    ensures Proceed(cfg, stuck, c).Next? ==> Measure(Proceed(cfg, stuck, c).state) < Measure(c)
  {
    if c.running.Some? {
      ConsumeMeasure(c);
      SettleMeasure(cfg, stuck, Consume(c));
    } else if Active(c) {
      IdleMeasure(c);
    }
  }

  /** Every iteration that goes on strictly lowers the measure. */
  lemma TickProgress(cfg: Config, stuck: Failures, s: State)
    requires Wf(s)
    ensures Tick(cfg, stuck, s).Next? ==> Measure(Tick(cfg, stuck, s).state) < Measure(s)
  {
    var a := Prepare(cfg, s);
    PrepareMeasure(cfg, s);
    var p := Preempt(a, stuck);
    PreemptMeasure(a, stuck);
    if p.Next? {
      var c := Dispatch(p.state);
      assert Tick(cfg, stuck, s) == Proceed(cfg, stuck, c);
      DispatchMeasure(p.state);
      NotDueKept(a, p.state);
      ProceedProgress(cfg, stuck, c);
    }
  }

  /** The state the loop goes on from after one turn, if it goes on: it has
      a smaller measure, and one turn fewer to run. */
  lemma RunSuccessor(cfg: Config, stuck: Failures, s: State, fuel: nat) returns (t: Option<State>, rest: nat)
    requires Wf(s) && Active(s) && fuel > 0
    ensures rest + 1 == fuel
    ensures t.None? ==> !Run(cfg, stuck, s, fuel).OutOfFuel?
    ensures t.Some? ==> Wf(t.value) && Measure(t.value) < Measure(s)
                        && Run(cfg, stuck, s, fuel) == Run(cfg, stuck, t.value, rest)
  {
    rest := fuel - 1;
    RunUnfolds(cfg, stuck, s, rest);
    TickProgress(cfg, stuck, s);
    var o := Tick(cfg, stuck, s);
    t := if o.Next? then Some(o.state) else None;
  }

  /** The main loop ends: given more iterations than the measure, it either
      finishes, with nothing running and every queue empty, or aborts on a
      job that could not be suspended. */
  lemma {:induction false} RunTerminates(cfg: Config, stuck: Failures, s: State, fuel: nat)
    requires Wf(s) && fuel > Measure(s)
    ensures !Run(cfg, stuck, s, fuel).OutOfFuel?
    decreases fuel
  {
    if Active(s) {
      var t, rest := RunSuccessor(cfg, stuck, s, fuel);
      if t.Some? {
        RunTerminates(cfg, stuck, t.value, rest);
      }
    } else {
      RunIdle(cfg, stuck, s, fuel);
    }
  }
}
