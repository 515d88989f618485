/** No job waits W ticks in level 1 or 2.

    Aging only looks at the head of level 1 and of level 2. That bounds the
    wait of every job in those levels because the levels are kept in order
    of their aging stamps (`last_enqueued_time`). Every job joins a level
    at its tail with the current tick as its stamp, and only a preempted
    job rejoins at the front, with the oldest stamp of its level. So once
    the head has waited less than W ticks, so has every job behind it.
 */
module MlqFairness {
  import opened Queues
  import opened Pcb
  import opened Mlq
  import opened MlqInvariants
  import opened Arrivals

  // ---------------------------------------------------------------------
  // Ordered stamps

  /** The aging stamps of `q` do not decrease from head to tail, and none
      lies after `timer`. */
  predicate Stamped(jobs: map<JobId, Job>, q: seq<JobId>, timer: int)
    requires forall x :: x in q ==> x in jobs
  {
    && (forall i, j :: 0 <= i < j < |q| ==> jobs[q[i]].lastEnqueuedTime <= jobs[q[j]].lastEnqueuedTime)
    && (forall i :: 0 <= i < |q| ==> jobs[q[i]].lastEnqueuedTime <= timer)
  }

  /** Every job of `q` was stamped no earlier than `t`. */
  predicate StampedFrom(jobs: map<JobId, Job>, q: seq<JobId>, t: int)
    requires forall x :: x in q ==> x in jobs
  {
    forall x :: x in q ==> t <= jobs[x].lastEnqueuedTime
  }

  /** Every level is in stamp order. A running job of priority 1 or 2
      carries a stamp no later than any job waiting in its level, since it
      rejoins that level at the front. */
  predicate Fair(s: State)
    requires Wf(s)
  {
    && Stamped(s.jobs, s.level0, s.timer)
    && Stamped(s.jobs, s.level1, s.timer)
    && Stamped(s.jobs, s.level2, s.timer)
    && (s.running.Some? ==>
          var j := s.jobs[s.running.value];
          && j.lastEnqueuedTime <= s.timer
          && (j.priority == 1 ==> StampedFrom(s.jobs, s.level1, j.lastEnqueuedTime))
          && (j.priority == 2 ==> StampedFrom(s.jobs, s.level2, j.lastEnqueuedTime)))
  }

  /** The jobs of `q` have the same stamps in both arenas. */
  predicate SameStamps(a: map<JobId, Job>, b: map<JobId, Job>, q: seq<JobId>)
  {
    forall x :: x in q ==> x in a && x in b && a[x].lastEnqueuedTime == b[x].lastEnqueuedTime
  }

  // ---------------------------------------------------------------------
  // Facts about ordered stamps

  /** Stamp order only depends on the stamps, and survives a later clock. */
  lemma StampedFrame(a: map<JobId, Job>, b: map<JobId, Job>, q: seq<JobId>, t: int, t': int)
    requires forall x :: x in q ==> x in a
    requires SameStamps(a, b, q) && Stamped(a, q, t) && t <= t'
    ensures Stamped(b, q, t')
  {
    forall i, j | 0 <= i < j < |q| ensures b[q[i]].lastEnqueuedTime <= b[q[j]].lastEnqueuedTime {
      assert a[q[i]].lastEnqueuedTime <= a[q[j]].lastEnqueuedTime;
    }
    forall i | 0 <= i < |q| ensures b[q[i]].lastEnqueuedTime <= t' {
      assert a[q[i]].lastEnqueuedTime <= t;
    }
  }

  /** Jobs stamped with the current tick can join the tail. */
  lemma StampedAppend(jobs: map<JobId, Job>, q: seq<JobId>, p: seq<JobId>, t: int)
    requires forall x :: x in q ==> x in jobs
    requires forall x :: x in p ==> x in jobs && jobs[x].lastEnqueuedTime == t
    requires Stamped(jobs, q, t)
    ensures Stamped(jobs, q + p, t)
  {
    var r := q + p;
    forall i, j | 0 <= i < j < |r| ensures jobs[r[i]].lastEnqueuedTime <= jobs[r[j]].lastEnqueuedTime {
      if j < |q| {
        assert r[i] == q[i] && r[j] == q[j];
      } else if i < |q| {
        assert r[i] == q[i] && r[j] in p;
      } else {
        assert r[i] in p && r[j] in p;
      }
    }
    forall i | 0 <= i < |r| ensures jobs[r[i]].lastEnqueuedTime <= t {
      if i < |q| {
        assert r[i] == q[i];
      } else {
        assert r[i] in p;
      }
    }
  }

  /** A job stamped no later than every job of the level can go in front. */
  lemma StampedCons(jobs: map<JobId, Job>, x: JobId, q: seq<JobId>, t: int)
    requires x in jobs && forall y :: y in q ==> y in jobs
    requires Stamped(jobs, q, t) && StampedFrom(jobs, q, jobs[x].lastEnqueuedTime)
    requires jobs[x].lastEnqueuedTime <= t
    ensures Stamped(jobs, [x] + q, t)
  {
    var r := [x] + q;
    forall i, j | 0 <= i < j < |r| ensures jobs[r[i]].lastEnqueuedTime <= jobs[r[j]].lastEnqueuedTime {
      assert r[j] == q[j - 1];
      if i > 0 {
        assert r[i] == q[i - 1];
      }
    }
    forall i | 0 <= i < |r| ensures jobs[r[i]].lastEnqueuedTime <= t {
      if i > 0 {
        assert r[i] == q[i - 1];
      }
    }
  }

  /** The head of a level in stamp order carries its oldest stamp. */
  lemma HeadOldest(jobs: map<JobId, Job>, q: seq<JobId>, t: int)
    requires forall x :: x in q ==> x in jobs
    requires Stamped(jobs, q, t) && q != []
    ensures StampedFrom(jobs, q, jobs[q[0]].lastEnqueuedTime)
    ensures StampedFrom(jobs, q[1..], jobs[q[0]].lastEnqueuedTime)
    ensures Stamped(jobs, q[1..], t)
  {
    forall x | x in q ensures jobs[q[0]].lastEnqueuedTime <= jobs[x].lastEnqueuedTime {
      var i :| 0 <= i < |q| && q[i] == x;
      if i > 0 {
        assert jobs[q[0]].lastEnqueuedTime <= jobs[q[i]].lastEnqueuedTime;
      }
    }
    var r := q[1..];
    forall i, j | 0 <= i < j < |r| ensures jobs[r[i]].lastEnqueuedTime <= jobs[r[j]].lastEnqueuedTime {
      assert r[i] == q[i + 1] && r[j] == q[j + 1];
    }
    forall i | 0 <= i < |r| ensures jobs[r[i]].lastEnqueuedTime <= t {
      assert r[i] == q[i + 1];
    }
  }

  /** Fairness only depends on the stamps of the placed jobs and the
      priority of the running one, and survives a later clock. */
  lemma FairFrame(s: State, r: State)
    requires Wf(s) && Wf(r) && Fair(s)
    requires r.level0 == s.level0 && r.level1 == s.level1 && r.level2 == s.level2
    requires r.running == s.running
    requires SameStamps(s.jobs, r.jobs, s.level0)
    requires SameStamps(s.jobs, r.jobs, s.level1) && SameStamps(s.jobs, r.jobs, s.level2)
    requires s.timer <= r.timer
    requires s.running.Some? ==>
               var id := s.running.value;
               r.jobs[id].lastEnqueuedTime == s.jobs[id].lastEnqueuedTime
               && r.jobs[id].priority == s.jobs[id].priority
    ensures Fair(r)
  {
    StampedFrame(s.jobs, r.jobs, s.level0, s.timer, r.timer);
    StampedFrame(s.jobs, r.jobs, s.level1, s.timer, r.timer);
    StampedFrame(s.jobs, r.jobs, s.level2, s.timer, r.timer);
  }

  // ---------------------------------------------------------------------
  // Each phase keeps the levels in stamp order

  /** Admission appends jobs stamped with the current tick. */
  lemma AdmitFair(s: State)
    requires Wf(s) && Fair(s)
    ensures Wf(Admit(s)) && Fair(Admit(s))
  {
    AdmitKeepsPlaces(s);
    AdmitLevelFair(s, 0);
    AdmitLevelFair(s, 1);
    AdmitLevelFair(s, 2);
    if s.running.Some? {
      AdmitRunningFair(s, 1);
      AdmitRunningFair(s, 2);
    }
  }

  /** Admission leaves the waiting jobs' records alone. */
  lemma AdmitLeaves(s: State, x: JobId)
    requires Wf(s) && x in s.jobs && x !in s.arrivals
    ensures Wf(Admit(s)) && Admit(s).jobs[x] == s.jobs[x]
  {
    AdmitKeepsPlaces(s);
    AdmitRecords(s);
    AdmitTakesDuePrefix(s);
    var moved := DuePrefix(s.jobs, s.arrivals, s.timer);
    assert x !in moved;
  }

  /** Admission leaves the stamps of a level's old jobs alone. */
  lemma AdmitKeepsStamps(s: State, k: int)
    requires Wf(s) && 0 <= k <= 2
    ensures Wf(Admit(s)) && SameStamps(s.jobs, Admit(s).jobs, Level(s, k))
  {
    AdmitKeepsPlaces(s);
    forall x | x in Level(s, k) ensures x in Admit(s).jobs && Admit(s).jobs[x] == s.jobs[x] {
      Apart(s, x);
      AdmitLeaves(s, x);
    }
  }

  /** Admission stamps every job it routes to a level with the current tick. */
  lemma AdmitStampsRouted(s: State, k: int)
    requires Wf(s) && 0 <= k <= 2
    ensures var routed := Routed(s.jobs, DuePrefix(s.jobs, s.arrivals, s.timer), k);
            forall x :: x in routed ==> x in Admit(s).jobs && Admit(s).jobs[x].lastEnqueuedTime == s.timer
  {
    var moved := DuePrefix(s.jobs, s.arrivals, s.timer);
    AdmitRecords(s);
    AdmitTakesDuePrefix(s);
    forall x | x in Routed(s.jobs, moved, k) ensures x in Admit(s).jobs && Admit(s).jobs[x].lastEnqueuedTime == s.timer {
      RoutedSpec(s.jobs, moved, k, x);
    }
  }

  /** Admission keeps level `k` in stamp order. */
  lemma AdmitLevelFair(s: State, k: int)
    requires Wf(s) && Fair(s) && 0 <= k <= 2
    ensures Wf(Admit(s)) && Stamped(Admit(s).jobs, Level(Admit(s), k), s.timer)
  {
    var r := Admit(s);
    var routed := Routed(s.jobs, DuePrefix(s.jobs, s.arrivals, s.timer), k);
    AdmitKeepsPlaces(s);
    AdmitRoutes(s, k);
    AdmitKeepsStamps(s, k);
    AdmitStampsRouted(s, k);
    StampedFrame(s.jobs, r.jobs, Level(s, k), s.timer, s.timer);
    StampedAppend(r.jobs, Level(s, k), routed, s.timer);
  }

  /** After admission the running job still has the oldest stamp of its level. */
  lemma AdmitRunningFair(s: State, k: int)
    requires Wf(s) && Fair(s) && s.running.Some? && (k == 1 || k == 2)
    ensures Wf(Admit(s))
    ensures var r := Admit(s);
            var j := r.jobs[s.running.value];
            j == s.jobs[s.running.value]
            && (j.priority == k ==> StampedFrom(r.jobs, Level(r, k), j.lastEnqueuedTime))
  {
    var r := Admit(s);
    var routed := Routed(s.jobs, DuePrefix(s.jobs, s.arrivals, s.timer), k);
    var id := s.running.value;
    var j := s.jobs[id];
    AdmitKeepsPlaces(s);
    AdmitRoutes(s, k);
    Apart(s, id);
    AdmitLeaves(s, id);
    if j.priority == k {
      AdmitKeepsStamps(s, k);
      AdmitStampsRouted(s, k);
      forall x | x in Level(r, k) ensures x in r.jobs && j.lastEnqueuedTime <= r.jobs[x].lastEnqueuedTime {
        assert x in Level(s, k) || x in routed;
      }
    }
  }

  /** Aging appends what it empties to level 0, stamped with the current
      tick, and leaves a level it does not empty and its jobs' stamps alone. */
  lemma AgeFair(s: State, w: int)
    requires Wf(s) && Fair(s)
    ensures Fair(Age(s, w))
  {
    AgeLevel0Fair(s, w);
    AgeKeptFair(s, w, 1);
    AgeKeptFair(s, w, 2);
    if s.running.Some? {
      var r := Age(s, w);
      var j := s.jobs[s.running.value];
      AgeLeavesRunning(s, w);
      if j.priority == 1 || j.priority == 2 {
        forall x | x in Level(r, j.priority) ensures j.lastEnqueuedTime <= r.jobs[x].lastEnqueuedTime {
          assert x in Level(s, j.priority);
        }
      }
    }
  }

  /** Aging leaves the running job's record alone. */
  lemma AgeLeavesRunning(s: State, w: int)
    requires Wf(s) && s.running.Some?
    ensures Age(s, w).jobs[s.running.value] == s.jobs[s.running.value]
  {
    AgeSpec(s, w);
    Apart(s, s.running.value);
  }

  /** Level 0 after aging: its old jobs, then the promoted ones. */
  lemma AgeLevel0Fair(s: State, w: int)
    requires Wf(s) && Fair(s)
    ensures Wf(Age(s, w)) && Stamped(Age(s, w).jobs, Age(s, w).level0, s.timer)
  {
    var r := Age(s, w);
    var up1 := Starved(s, 1, w);
    var up2 := up1 || Starved(s, 2, w);
    var a := if up1 then s.level1 else [];
    var b := if up2 then s.level2 else [];
    AgeSpec(s, w);
    forall x | x in s.level0 ensures r.jobs[x] == s.jobs[x] {
      Apart(s, x);
    }
    StampedFrame(s.jobs, r.jobs, s.level0, s.timer, s.timer);
    StampedAppend(r.jobs, s.level0, a, s.timer);
    StampedAppend(r.jobs, s.level0 + a, b, s.timer);
  }

  /** A level that aging does not empty keeps its jobs and their stamps. */
  lemma AgeKeptFair(s: State, w: int, k: int)
    requires Wf(s) && Fair(s) && (k == 1 || k == 2)
    ensures Wf(Age(s, w)) && Stamped(Age(s, w).jobs, Level(Age(s, w), k), s.timer)
    ensures Level(Age(s, w), k) == [] || Level(Age(s, w), k) == Level(s, k)
    ensures SameStamps(s.jobs, Age(s, w).jobs, Level(Age(s, w), k))
  {
    var r := Age(s, w);
    AgeLevels(s, w);
    if Level(r, k) != [] {
      forall x | x in Level(s, k) ensures r.jobs[x] == s.jobs[x] {
        AgeLeaves(s, w, k, x);
      }
      StampedFrame(s.jobs, r.jobs, Level(s, k), s.timer, s.timer);
    }
  }

  /** A job of a level that aging does not empty keeps its record. */
  lemma AgeLeaves(s: State, w: int, k: int, x: JobId)
    requires Wf(s) && (k == 1 || k == 2) && x in Level(s, k) && Level(Age(s, w), k) != []
    ensures x in Age(s, w).jobs && Age(s, w).jobs[x] == s.jobs[x]
  {
    AgeSpec(s, w);
    Apart(s, x);
  }

  /** Preemption puts the job with the oldest stamp at the front. */
  lemma PreemptFair(s: State, stuck: Failures)
    requires Wf(s) && Fair(s)
    ensures Preempt(s, stuck).Next? ==> Fair(Preempt(s, stuck).state)
  {
    var r := Preempt(s, stuck);
    if r.Next? && s.running.Some? && MustYield(s, s.jobs[s.running.value].priority) {
      var id := s.running.value;
      var j := s.jobs[id];
      var k := j.priority;
      var t := r.state;
      assert r == PreemptToFront(s, stuck);
      assert k == 1 || k == 2;
      assert Level(t, k) == [id] + Level(s, k);
      forall x | x in s.level0 ensures t.jobs[x].lastEnqueuedTime == s.jobs[x].lastEnqueuedTime {
        Apart(s, x);
      }
      forall x | x in s.level1 ensures t.jobs[x].lastEnqueuedTime == s.jobs[x].lastEnqueuedTime {
        Apart(s, x);
      }
      forall x | x in s.level2 ensures t.jobs[x].lastEnqueuedTime == s.jobs[x].lastEnqueuedTime {
        Apart(s, x);
      }
      StampedFrame(s.jobs, t.jobs, s.level0, s.timer, s.timer);
      StampedFrame(s.jobs, t.jobs, s.level1, s.timer, s.timer);
      StampedFrame(s.jobs, t.jobs, s.level2, s.timer, s.timer);
      StampedCons(t.jobs, id, Level(s, k), s.timer);
    }
  }

  /** Dispatch takes the head, whose stamp is the oldest of its level. */
  lemma DispatchFair(s: State)
    requires Wf(s) && Ranked(s) && Fair(s)
    ensures Fair(Dispatch(s))
  {
    var r := Dispatch(s);
    if s.running.None? && r.running.Some? {
      DispatchRecord(s);
      var id := r.running.value;
      forall x | x in s.jobs ensures r.jobs[x].lastEnqueuedTime == s.jobs[x].lastEnqueuedTime {
      }
      var k := if s.level0 != [] then 0 else if s.level1 != [] then 1 else 2;
      assert id == Level(s, k)[0] && Level(r, k) == Level(s, k)[1..];
      assert r.jobs[id].priority == k;
      HeadOldest(s.jobs, Level(s, k), s.timer);
      StampedFrame(s.jobs, r.jobs, Level(s, k)[1..], s.timer, s.timer);
      if k != 0 {
        StampedFrame(s.jobs, r.jobs, s.level0, s.timer, s.timer);
      }
      if k != 1 {
        StampedFrame(s.jobs, r.jobs, s.level1, s.timer, s.timer);
      }
      if k != 2 {
        StampedFrame(s.jobs, r.jobs, s.level2, s.timer, s.timer);
      }
    }
  }

  /** A consumed tick only moves the clock on and charges the running job. */
  lemma ConsumeFair(s: State)
    requires Wf(s) && s.running.Some? && Fair(s)
    ensures Fair(Consume(s))
  {
    var r := Consume(s);
    forall x | x in s.jobs ensures r.jobs[x].lastEnqueuedTime == s.jobs[x].lastEnqueuedTime {
    }
    FairFrame(s, r);
  }

  /** Completion removes the running job and touches no level. */
  lemma CompleteFair(s: State)
    requires Wf(s) && s.running.Some? && Fair(s)
    ensures Fair(Complete(s))
  {
    var r := Complete(s);
    var id := s.running.value;
    Apart(s, id);
    StampedFrame(s.jobs, r.jobs, s.level0, s.timer, s.timer);
    StampedFrame(s.jobs, r.jobs, s.level1, s.timer, s.timer);
    StampedFrame(s.jobs, r.jobs, s.level2, s.timer, s.timer);
  }

  /** Demotion appends the job at the tail, stamped with the current tick. */
  lemma DemoteFair(s: State, stuck: Failures, p: int)
    requires Wf(s) && s.running.Some? && Fair(s) && 0 <= p <= 2
    ensures DemoteToLevel(s, stuck, p).Next? ==> Fair(DemoteToLevel(s, stuck, p).state)
  {
    var r := DemoteToLevel(s, stuck, p);
    if r.Next? {
      var t := r.state;
      var id := s.running.value;
      Apart(s, id);
      StampedFrame(s.jobs, t.jobs, s.level0, s.timer, s.timer);
      StampedFrame(s.jobs, t.jobs, s.level1, s.timer, s.timer);
      StampedFrame(s.jobs, t.jobs, s.level2, s.timer, s.timer);
      StampedAppend(t.jobs, Level(s, p), [id], s.timer);
    }
  }

  /** Completion or expiry keeps the levels in stamp order. */
  lemma SettleFair(cfg: Config, stuck: Failures, s: State)
    requires Wf(s) && s.running.Some? && Fair(s)
    ensures Settle(cfg, stuck, s).Next? ==> Fair(Settle(cfg, stuck, s).state)
  {
    var j := s.jobs[s.running.value];
    if j.remainingCpuTime <= 0 {
      CompleteFair(s);
    } else if Expired(cfg, j) {
      DemoteFair(s, stuck, if j.priority == 0 then 1 else 2);
    }
  }

  /** The rest of a tick after dispatch keeps the levels in stamp order. */
  lemma ProceedFair(cfg: Config, stuck: Failures, c: State)
    requires Wf(c) && Fair(c)
    ensures !Proceed(cfg, stuck, c).Abort? ==> Fair(Proceed(cfg, stuck, c).state)
  {
    if c.running.None? {
      if Active(c) {
        FairFrame(c, Advance(c));
      }
    } else {
      ConsumeFair(c);
      SettleFair(cfg, stuck, Consume(c));
    }
  }

  // ---------------------------------------------------------------------
  // The main loop

  /** Every iteration of the main loop keeps the levels in stamp order. */
  lemma TickFair(cfg: Config, stuck: Failures, s: State)
    requires Inv(s) && Fair(s)
    ensures !Tick(cfg, stuck, s).Abort? ==> Fair(Tick(cfg, stuck, s).state)
  {
    var a := Prepare(cfg, s);
    AdmitFair(s);
    AgeFair(Admit(s), cfg.w);
    PrepareKeepsInv(cfg, s);
    var p := Preempt(a, stuck);
    if p.Next? {
      PreemptFair(a, stuck);
      PreemptKeepsInv(a, stuck);
      DispatchFair(p.state);
      ProceedFair(cfg, stuck, Dispatch(p.state));
      assert Tick(cfg, stuck, s) == Proceed(cfg, stuck, Dispatch(p.state));
    }
  }

  /** On a level whose stamps are in order, checking the head alone finds
      every starving job: the head has waited W ticks exactly when some job
      of the level has. */
  lemma StarvedIffAnyWaited(s: State, k: int, w: int)
    requires Wf(s) && 0 <= k <= 2 && Stamped(s.jobs, Level(s, k), s.timer)
    ensures Starved(s, k, w) <==> exists x :: x in Level(s, k) && s.timer - s.jobs[x].lastEnqueuedTime >= w
  {
    var q := Level(s, k);
    if q != [] {
      HeadOldest(s.jobs, q, s.timer);
      assert q[0] in q;
    }
  }

  /** After the aging check no job in level 1 or 2 has waited W ticks or
      more since it joined its level: the head-only check bounds them all. */
  lemma NoneStarved(s: State, w: int)
    requires Wf(s) && Fair(s)
    ensures var r := Age(s, w);
            && (forall x :: x in r.level1 ==> r.timer - r.jobs[x].lastEnqueuedTime < w)
            && (forall x :: x in r.level2 ==> r.timer - r.jobs[x].lastEnqueuedTime < w)
  {
    var r := Age(s, w);
    AgeFair(s, w);
    AgeClearsStarvation(s, w);
    if r.level1 != [] {
      HeadOldest(r.jobs, r.level1, r.timer);
    }
    if r.level2 != [] {
      HeadOldest(r.jobs, r.level2, r.timer);
    }
  }

  /** In every tick, once admission and aging are done, no job in level 1
      or 2 has waited W ticks or more. */
  lemma NoStarvationInTick(cfg: Config, s: State)
    requires Wf(s) && Fair(s)
    ensures var r := Prepare(cfg, s);
            && (forall x :: x in r.level1 ==> r.timer - r.jobs[x].lastEnqueuedTime < cfg.w)
            && (forall x :: x in r.level2 ==> r.timer - r.jobs[x].lastEnqueuedTime < cfg.w)
  {
    AdmitFair(s);
    NoneStarved(Admit(s), cfg.w);
  }

  /** The start-up state is fair: every level is empty and the CPU idle. */
  lemma LoadFair(input: seq<Option<Entry>>)
    ensures Load(input).Some? ==> Wf(Load(input).value) && Fair(Load(input).value)
  {
    if Load(input).Some? {
      LoadEstablishesInv(input);
    }
  }
}
