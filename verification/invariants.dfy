/** What the scheduler keeps true from one loop iteration to the next.

    Three invariants, each preserved by every phase of a tick:
    - OnePlace: every job the scheduler still holds is in exactly one of
      the arrival queue, the three levels and the CPU;
    - Ranked: every priority is a level, and a ready job sits in the level
      its priority names;
    - Accounted: the metric totals are the sums over the completed jobs,
      and completed plus live jobs are all the jobs read at start-up.
 */
module MlqInvariants {
  import opened Queues
  import opened Pcb
  import opened Mlq

  // ---------------------------------------------------------------------
  // The invariants

  /** Every live job is in exactly one place. */
  predicate OnePlace(s: State)
  {
    Wf(s) && Placed(s) == multiset(s.jobs.Keys)
  }

  /** Priorities are levels, and the ready levels hold only jobs of their own
      priority. */
  predicate Ranked(s: State)
    requires Wf(s)
  {
    && (forall x :: x in s.jobs ==> 0 <= s.jobs[x].initialPriority <= 2 && 0 <= s.jobs[x].priority <= 2)
    && (forall k, x :: 0 <= k <= 2 && x in Level(s, k) ==> s.jobs[x].priority == k)
  }

  /** Sum of the turnaround, waiting and response times of released records. */
  function Turnarounds(rs: seq<Job>): int
  {
    if rs == [] then 0 else Turnarounds(rs[..|rs| - 1]) + (rs[|rs| - 1].completionTime - rs[|rs| - 1].arrivalTime)
  }

  function Waits(rs: seq<Job>): int
  {
    if rs == [] then 0 else Waits(rs[..|rs| - 1]) + rs[|rs| - 1].totalWaitTime
  }

  function Responses(rs: seq<Job>): int
  {
    if rs == [] then 0 else Responses(rs[..|rs| - 1]) + rs[|rs| - 1].responseTime
  }

  /** The metric totals are exactly what the completed jobs contributed, and
      no job is lost: completed plus live is the number read at start-up. */
  predicate Accounted(s: State)
  {
    && s.metrics.completedJobs == |s.released|
    && s.metrics.completedJobs + |s.jobs| == s.metrics.totalJobs
    && s.metrics.totalTurnaround == Turnarounds(s.released)
    && s.metrics.totalWaiting == Waits(s.released)
    && s.metrics.totalResponse == Responses(s.released)
  }

  predicate Inv(s: State)
  {
    OnePlace(s) && Ranked(s) && Accounted(s)
  }

  // ---------------------------------------------------------------------
  // Facts about places

  /** The number of places that hold `x`. */
  function PlaceCount(s: State, x: JobId): nat
  {
    (if x in s.arrivals then 1 else 0) + (if x in s.level0 then 1 else 0) + (if x in s.level1 then 1 else 0)
    + (if x in s.level2 then 1 else 0) + (if s.running == Some(x) then 1 else 0)
  }

  /** In a well-formed state no job is in two places. */
  lemma Apart(s: State, x: JobId)
    requires Wf(s)
    ensures PlaceCount(s, x) <= 1
  {
    PlacedByLevel(s);
    assert Placed(s)[x] <= multiset(s.jobs.Keys)[x] <= 1;
    assert x in s.arrivals ==> multiset(s.arrivals)[x] >= 1;
    assert x in s.level0 ==> multiset(s.level0)[x] >= 1;
    assert x in s.level1 ==> multiset(s.level1)[x] >= 1;
    assert x in s.level2 ==> multiset(s.level2)[x] >= 1;
    assert s.running == Some(x) ==> multiset(RunningSeq(s))[x] >= 1;
  }

  /** Under OnePlace every live job is in some place. */
  lemma Somewhere(s: State, x: JobId)
    requires OnePlace(s) && x in s.jobs
    ensures PlaceCount(s, x) == 1
  {
    Apart(s, x);
    PlacedByLevel(s);
    assert Placed(s)[x] == 1;
    assert s.running != Some(x) ==> multiset(RunningSeq(s))[x] == 0;
  }

  /** A routed id comes from the routed list, and its priority names the level. */
  lemma {:induction false} RoutedSpec(jobs: map<JobId, Job>, ids: seq<JobId>, k: int, x: JobId)
    requires forall y :: y in ids ==> y in jobs
    requires x in Routed(jobs, ids, k)
    ensures x in ids && LevelOf(jobs[x].initialPriority) == k
    decreases |ids|
  {
    if x != ids[0] || LevelOf(jobs[ids[0]].initialPriority) != k {
      RoutedSpec(jobs, ids[1..], k, x);
    }
  }

  // ---------------------------------------------------------------------
  // Admission and aging

  /** An admitted or waiting job is in the level its priority names. */
  lemma AdmitRankedAt(s: State, k: int, x: JobId)
    requires Wf(s) && Ranked(s) && 0 <= k <= 2
    requires x in Level(Admit(s), k)
    ensures x in Admit(s).jobs && Admit(s).jobs[x].priority == k
  {
    var moved := DuePrefix(s.jobs, s.arrivals, s.timer);
    AdmitRecords(s);
    AdmitRoutes(s, k);
    if x in Level(s, k) {
      Apart(s, x);
      assert x !in moved;
    } else {
      RoutedSpec(s.jobs, moved, k, x);
    }
  }

  /** Admission keeps every priority within the three levels. */
  lemma AdmitPriorities(s: State)
    requires Wf(s) && Ranked(s)
    ensures forall x :: x in Admit(s).jobs ==>
              0 <= Admit(s).jobs[x].initialPriority <= 2 && 0 <= Admit(s).jobs[x].priority <= 2
  {
    var r := Admit(s);
    AdmitRecords(s);
    forall x | x in r.jobs ensures 0 <= r.jobs[x].initialPriority <= 2 && 0 <= r.jobs[x].priority <= 2 {
      assert x in s.jobs;
    }
  }

  /** Admission keeps every job in its level: admitted jobs take their
      initial priority and join the level it names. */
  lemma AdmitRanked(s: State)
    requires Wf(s) && Ranked(s)
    ensures Wf(Admit(s)) && Ranked(Admit(s))
  {
    var r := Admit(s);
    AdmitKeepsPlaces(s);
    AdmitPriorities(s);
    forall k, x | 0 <= k <= 2 && x in Level(r, k) ensures r.jobs[x].priority == k {
      AdmitRankedAt(s, k, x);
    }
  }

  /** A job left in or moved to a level after aging is in the level its
      priority names. */
  lemma AgeRankedAt(s: State, w: int, k: int, x: JobId)
    requires Wf(s) && Ranked(s) && 0 <= k <= 2
    requires x in Level(Age(s, w), k)
    ensures Age(s, w).jobs[x].priority == k
  {
    var r := Age(s, w);
    var up1 := Starved(s, 1, w);
    var up2 := up1 || Starved(s, 2, w);
    AgeSpec(s, w);
    Apart(s, x);
    if k == 0 {
      if x in s.level0 {
        assert x !in s.level1 && x !in s.level2;
        assert x in Level(s, 0);
      } else {
        assert x in s.level0 + (if up1 then s.level1 else []) + (if up2 then s.level2 else []);
        assert (up1 && x in s.level1) || (up2 && x in s.level2);
      }
    } else if k == 1 {
      assert !up1 && x in s.level1 && x !in s.level2;
      assert x in Level(s, 1);
    } else {
      assert !up2 && x in s.level2 && x !in s.level1;
      assert x in Level(s, 2);
    }
  }

  /** Aging keeps every job in its level: promoted jobs have priority 0 and
      are in level 0, and the levels left in place keep their records. */
  lemma AgeRanked(s: State, w: int)
    requires Wf(s) && Ranked(s)
    ensures Ranked(Age(s, w))
  {
    var r := Age(s, w);
    forall x | x in r.jobs ensures 0 <= r.jobs[x].initialPriority <= 2 && 0 <= r.jobs[x].priority <= 2 {
      AgeSpec(s, w);
    }
    forall k, x | 0 <= k <= 2 && x in Level(r, k) ensures r.jobs[x].priority == k {
      AgeRankedAt(s, w, k, x);
    }
  }

  /** After aging no ready level has a head that has waited W ticks or
      more since it was placed in its level. */
  lemma AgeClearsStarvation(s: State, w: int)
    requires Wf(s)
    ensures !Starved(Age(s, w), 1, w) && !Starved(Age(s, w), 2, w)
  {
    var r := Age(s, w);
    AgeSpec(s, w);
    if !Starved(s, 1, w) && r.level1 != [] {
      var h := s.level1[0];
      assert r.level1 == s.level1;
      Apart(s, h);
      assert r.jobs[h] == s.jobs[h];
    }
  }

  /** The first half of an iteration keeps all three invariants. */
  lemma PrepareKeepsInv(cfg: Config, s: State)
    requires Inv(s)
    ensures Inv(Prepare(cfg, s))
  {
    AdmitRanked(s);
    AgeRanked(Admit(s), cfg.w);
  }

  // ---------------------------------------------------------------------
  // Preemption and dispatch

  /** A preempted job goes back to the level of its own priority. */
  lemma PreemptKeepsInv(s: State, stuck: Failures)
    requires Inv(s)
    ensures Preempt(s, stuck).Next? ==> Inv(Preempt(s, stuck).state)
  {
    var r := Preempt(s, stuck);
    if r.Next? && r != Next(s) {
      var t := r.state;
      var id := s.running.value;
      var k := LevelOf(s.jobs[id].priority);
      assert r == PreemptToFront(s, stuck);
      forall x | x in t.jobs ensures 0 <= t.jobs[x].initialPriority <= 2 && 0 <= t.jobs[x].priority <= 2 {
      }
      forall k', x | 0 <= k' <= 2 && x in Level(t, k') ensures t.jobs[x].priority == k' {
        Apart(s, x);
        if x == id {
          assert k' == k;
        } else {
          assert x in Level(s, k');
        }
      }
    }
  }

  /** Dispatch takes the job out of its level; every job still ready keeps
      its record and its level. */
  lemma DispatchKeepsInv(s: State)
    requires Inv(s)
    ensures Inv(Dispatch(s))
  {
    var r := Dispatch(s);
    if s.running.None? && r.running.Some? {
      var id := r.running.value;
      DispatchRecord(s);
      forall x | x in r.jobs ensures 0 <= r.jobs[x].initialPriority <= 2 && 0 <= r.jobs[x].priority <= 2 {
      }
      forall k, x | 0 <= k <= 2 && x in Level(r, k) ensures r.jobs[x].priority == k {
        Apart(r, x);
        DispatchLeavesRest(s, k, x);
      }
    }
  }

  /** A job ready after dispatch was ready, in the same level, before. */
  lemma DispatchLeavesRest(s: State, k: int, x: JobId)
    requires Wf(s) && 0 <= k <= 2
    requires x in Level(Dispatch(s), k)
    ensures x in Level(s, k)
  {
    var r := Dispatch(s);
    if s.running.None? {
      if k == 0 && s.level0 != [] {
        assert x in s.level0[1..];
      } else if k == 1 && s.level0 == [] && s.level1 != [] {
        assert x in s.level1[1..];
      } else if k == 2 && s.level0 == [] && s.level1 == [] && s.level2 != [] {
        assert x in s.level2[1..];
      }
    }
  }

  // ---------------------------------------------------------------------
  // Running, completion, expiry

  /** Consuming a tick changes only the running job's counters. */
  lemma ConsumeKeepsInv(s: State)
    requires Inv(s) && s.running.Some?
    ensures Inv(Consume(s))
  {
    var r := Consume(s);
    forall k, x | 0 <= k <= 2 && x in Level(r, k) ensures r.jobs[x].priority == k {
      Apart(s, x);
      assert x in Level(s, k) && x != s.running.value;
    }
    assert Placed(r) == Placed(s) by {
      PlacedByLevel(s);
      PlacedByLevel(r);
    }
  }

  /** Completion releases the running job and folds it into the totals. */
  lemma CompleteKeepsInv(s: State)
    requires Inv(s) && s.running.Some?
    ensures Inv(Complete(s))
  {
    var r := Complete(s);
    var id := s.running.value;
    forall x ensures Placed(r)[x] == multiset(r.jobs.Keys)[x] {
      assert (Placed(r) + multiset{id})[x] == Placed(s)[x];
    }
    var j := s.jobs[id].(completionTime := s.timer);
    assert (s.released + [j])[..|s.released|] == s.released;
    assert |r.jobs| == |s.jobs| - 1;
    assert OnePlace(r);
    forall k, x | 0 <= k <= 2 && x in Level(r, k) ensures r.jobs[x].priority == k {
      assert x in Level(s, k);
    }
    assert Ranked(r);
    assert Accounted(r);
  }

  /** A demoted or requeued job joins the level it is given, with that
      priority. */
  lemma DemoteKeepsInv(s: State, stuck: Failures, p: int)
    requires Inv(s) && s.running.Some? && 0 <= p <= 2
    ensures DemoteToLevel(s, stuck, p).Next? ==> Inv(DemoteToLevel(s, stuck, p).state)
  {
    var r := DemoteToLevel(s, stuck, p);
    if r.Next? {
      var t := r.state;
      forall x | x in t.jobs ensures 0 <= t.jobs[x].initialPriority <= 2 && 0 <= t.jobs[x].priority <= 2 {
      }
      forall k, x | 0 <= k <= 2 && x in Level(t, k) ensures t.jobs[x].priority == k {
        DemoteRankedAt(s, stuck, p, k, x);
      }
    }
  }

  /** After a demotion every queued job is in the level its priority names. */
  lemma DemoteRankedAt(s: State, stuck: Failures, p: int, k: int, x: JobId)
    requires Inv(s) && s.running.Some? && 0 <= p <= 2 && 0 <= k <= 2
    requires DemoteToLevel(s, stuck, p).Next? && x in Level(DemoteToLevel(s, stuck, p).state, k)
    ensures x in DemoteToLevel(s, stuck, p).state.jobs
    ensures DemoteToLevel(s, stuck, p).state.jobs[x].priority == k
  {
    Apart(s, x);
    if x == s.running.value {
      assert k == p;
    } else {
      assert x in Level(s, k);
    }
  }

  /** Completion or expiry keeps the invariants. */
  lemma SettleKeepsInv(cfg: Config, stuck: Failures, s: State)
    requires Inv(s) && s.running.Some?
    ensures Settle(cfg, stuck, s).Next? ==> Inv(Settle(cfg, stuck, s).state)
  {
    var j := s.jobs[s.running.value];
    if j.remainingCpuTime <= 0 {
      CompleteKeepsInv(s);
    } else if Expired(cfg, j) {
      DemoteKeepsInv(s, stuck, if j.priority == 0 then 1 else 2);
    }
  }

  /** The invariants do not look at the clock. */
  lemma ClockFree(s: State, t: State)
    requires Inv(s) && t == s.(timer := t.timer)
    ensures Inv(t)
  {
    assert Placed(t) == Placed(s) by {
      PlacedByLevel(s);
      PlacedByLevel(t);
    }
    forall k, x | 0 <= k <= 2 && x in Level(t, k) ensures t.jobs[x].priority == k {
      assert x in Level(s, k);
    }
  }

  /** The second half of an iteration keeps the invariants. */
  lemma ProceedKeepsInv(cfg: Config, stuck: Failures, c: State)
    requires Inv(c)
    ensures !Proceed(cfg, stuck, c).Abort? ==> Inv(Proceed(cfg, stuck, c).state)
  {
    if c.running.Some? {
      ConsumeKeepsInv(c);
      SettleKeepsInv(cfg, stuck, Consume(c));
    } else {
      ClockFree(c, Advance(c));
    }
  }

  // ---------------------------------------------------------------------
  // The whole iteration

  /** Every iteration of the main loop keeps every invariant: in particular
      each live job stays in exactly one place, and every priority stays a
      level. */
  lemma TickKeepsInv(cfg: Config, stuck: Failures, s: State)
    requires Inv(s)
    ensures !Tick(cfg, stuck, s).Abort? ==> Inv(Tick(cfg, stuck, s).state)
  {
    var a := Prepare(cfg, s);
    PrepareKeepsInv(cfg, s);
    PreemptKeepsInv(a, stuck);
    var p := Preempt(a, stuck);
    if p.Next? {
      assert Tick(cfg, stuck, s) == Proceed(cfg, stuck, Dispatch(p.state));
      DispatchKeepsInv(p.state);
      ProceedKeepsInv(cfg, stuck, Dispatch(p.state));
    }
  }

  // ---------------------------------------------------------------------
  // Leaving the loop

  /** The loop guard (mlq.c:238) holds exactly when some job is placed. */
  lemma ActiveIffPlaced(s: State)
    ensures Active(s) <==> Placed(s) != multiset{}
  {
    PlacedByLevel(s);
    if s.arrivals != [] {
      assert multiset(s.arrivals)[s.arrivals[0]] > 0;
    } else if s.level0 != [] {
      assert multiset(s.level0)[s.level0[0]] > 0;
    } else if s.level1 != [] {
      assert multiset(s.level1)[s.level1[0]] > 0;
    } else if s.level2 != [] {
      assert multiset(s.level2)[s.level2[0]] > 0;
    } else if s.running.Some? {
      assert multiset(RunningSeq(s))[s.running.value] > 0;
    }
  }

  /** The `break` of the idle branch (mlq.c:290-293) is never taken: an
      iteration entered with the loop guard true never stops the loop, since
      no phase before it removes a job from the scheduler. The loop is left
      only through its guard. */
  lemma TickNeverHalts(cfg: Config, stuck: Failures, s: State)
    requires Wf(s) && Active(s)
    ensures !Tick(cfg, stuck, s).Halt?
  {
    var p := Preempt(Prepare(cfg, s), stuck);
    if p.Next? {
      var c := Dispatch(p.state);
      assert Tick(cfg, stuck, s) == Proceed(cfg, stuck, c);
      ActiveIffPlaced(s);
      ActiveIffPlaced(c);
    }
  }

  // ---------------------------------------------------------------------
  // The whole loop

  /** The state the loop goes on from after one turn, if it goes on, with
      the turns left for it; the invariants hold there. */
  lemma RunSuccessorInv(cfg: Config, stuck: Failures, s: State, fuel: nat) returns (t: Option<State>, rest: nat)
    requires Inv(s) && Active(s) && fuel > 0
    ensures rest + 1 == fuel
    ensures t.None? ==> Run(cfg, stuck, s, fuel).Aborted?
    ensures t.Some? ==> Inv(t.value) && Run(cfg, stuck, s, fuel) == Run(cfg, stuck, t.value, rest)
    ensures t.Some? ==> t.value.metrics.totalJobs == s.metrics.totalJobs
  {
    rest := fuel - 1;
    RunUnfolds(cfg, stuck, s, rest);
    TickKeepsInv(cfg, stuck, s);
    TickNeverHalts(cfg, stuck, s);
    var o := Tick(cfg, stuck, s);
    t := if o.Next? then Some(o.state) else None;
  }

  /** The loop keeps every invariant: unless it aborts, the state it ends
      in, or runs out of turns in, meets them. */
  lemma {:induction false} RunKeepsInv(cfg: Config, stuck: Failures, s: State, fuel: nat)
    requires Inv(s)
    ensures !Run(cfg, stuck, s, fuel).Aborted? ==> Inv(Run(cfg, stuck, s, fuel).state)
    ensures !Run(cfg, stuck, s, fuel).Aborted? ==>
              Run(cfg, stuck, s, fuel).state.metrics.totalJobs == s.metrics.totalJobs
    decreases fuel
  {
    if !Active(s) {
      RunIdle(cfg, stuck, s, fuel);
    } else if fuel > 0 {
      var t, rest := RunSuccessorInv(cfg, stuck, s, fuel);
      if t.Some? {
        RunKeepsInv(cfg, stuck, t.value, rest);
      }
    }
  }

  /** When the loop guard fails every job read at start-up has completed:
      no record is live, and the completed count is the total. */
  lemma DoneMeansAllCompleted(s: State)
    requires Inv(s) && !Active(s)
    ensures s.jobs.Keys == {}
    ensures s.metrics.completedJobs == s.metrics.totalJobs == |s.released|
  {
    ActiveIffPlaced(s);
    assert |s.jobs.Keys| == |multiset(s.jobs.Keys)|;
  }

  /** A loop that finishes has completed every job, and the totals are the
      sums over all of them. */
  lemma RunCompletesAll(cfg: Config, stuck: Failures, s: State, fuel: nat)
    requires Inv(s)
    ensures var r := Run(cfg, stuck, s, fuel);
            r.Finished? ==>
              && r.state.jobs.Keys == {}
              && r.state.metrics.completedJobs == r.state.metrics.totalJobs == s.metrics.totalJobs
              && |r.state.released| == s.metrics.totalJobs
              && r.state.metrics.totalTurnaround == Turnarounds(r.state.released)
              && r.state.metrics.totalWaiting == Waits(r.state.released)
              && r.state.metrics.totalResponse == Responses(r.state.released)
  {
    RunKeepsInv(cfg, stuck, s, fuel);
    var r := Run(cfg, stuck, s, fuel);
    if r.Finished? {
      DoneMeansAllCompleted(r.state);
    }
  }
}
