/** The scheduling engine of mlq.c: one iteration of the main loop as a pure
    step function over an explicit scheduler state.

    A tick runs admission, aging, preemption and dispatch; then either stops,
    lets an idle tick pass, or lets the running job consume one tick, after
    which the job completes, is demoted or requeued, or keeps the CPU.
 */
module Mlq {
  import opened Queues
  import opened Pcb

  /** The four numbers read at start-up: the level-0 and level-1 quanta, the
      level-2 round-robin quantum and the starvation threshold W. */
  datatype Config = Config(t0: int, t1: int, t2: int, w: int)

  /** Integer totals behind the averages printed at the end. */
  datatype Metrics = Metrics(
    totalTurnaround: int,
    totalWaiting: int,
    totalResponse: int,
    completedJobs: nat,
    totalJobs: nat)

  /** The scheduler state: the arena of live job records, the arrival queue,
      the three ready levels, the running job, the tick counter, the metric
      totals, and the records of completed jobs in completion order. */
  datatype State = State(
    jobs: map<JobId, Job>,
    arrivals: seq<JobId>,
    level0: seq<JobId>,
    level1: seq<JobId>,
    level2: seq<JobId>,
    running: Option<JobId>,
    timer: int,
    metrics: Metrics,
    released: seq<Job>)

  /** The result of a step: the loop goes on, the loop stops, or the
      simulation aborts because the job could not be suspended. */
  datatype Outcome = Next(state: State) | Halt(state: State) | Abort(job: JobId)

  /** The `suspendPcb` calls that fail, each named by its job and the clock
      at the call. No two calls share both: a job is suspended at most once
      per value of the clock, because a job put back in a queue is not
      running when the next preemption check comes. So any pattern of
      failures, including a later failure of a job whose earlier suspension
      succeeded, is some set of this type. */
  type Failures = set<(JobId, int)>

  function Level(s: State, k: int): seq<JobId>
  {
    if k == 0 then s.level0 else if k == 1 then s.level1 else s.level2
  }

  /** The state with level `k` replaced by `q`. */
  function WithLevel(s: State, k: int, q: seq<JobId>): (r: State)
    requires 0 <= k <= 2
    ensures Level(r, k) == q
    ensures forall k' :: 0 <= k' <= 2 && k' != k ==> Level(r, k') == Level(s, k')
    ensures r.jobs == s.jobs && r.arrivals == s.arrivals && r.running == s.running
    ensures r.timer == s.timer && r.metrics == s.metrics && r.released == s.released
  {
    if k == 0 then s.(level0 := q) else if k == 1 then s.(level1 := q) else s.(level2 := q)
  }

  /** The running job as a queue of at most one element. */
  function RunningSeq(s: State): seq<JobId>
  {
    if s.running.Some? then [s.running.value] else []
  }

  /** Every place a job can be in: the arrival queue, a level, or the CPU. */
  function Places(s: State): seq<seq<JobId>>
  {
    [s.arrivals, s.level0, s.level1, s.level2, RunningSeq(s)]
  }

  /** All elements of a list of queues, with multiplicity. */
  function Bag(qs: seq<seq<JobId>>): multiset<JobId>
  {
    if qs == [] then multiset{} else multiset(qs[0]) + Bag(qs[1..])
  }

  /** The jobs in some place, counted once per place they occupy. */
  function Placed(s: State): multiset<JobId>
  {
    Bag(Places(s))
  }

  /** No dangling links, and no record linked twice: every id a queue or the
      CPU refers to has a record, and no id is in two places at once. */
  predicate Wf(s: State)
  {
    && (forall x :: x in s.arrivals ==> x in s.jobs)
    && (forall x :: x in s.level0 ==> x in s.jobs)
    && (forall x :: x in s.level1 ==> x in s.jobs)
    && (forall x :: x in s.level2 ==> x in s.jobs)
    && (s.running.Some? ==> s.running.value in s.jobs)
    && Placed(s) <= multiset(s.jobs.Keys)
  }

  /** The membership half of Wf follows from the multiset half. */
  lemma WfFromPlaced(s: State)
    requires Placed(s) <= multiset(s.jobs.Keys)
    ensures Wf(s)
  {
    PlacedByLevel(s);
    forall x | x in s.arrivals ensures x in s.jobs {
      assert Placed(s)[x] >= multiset(s.arrivals)[x] > 0;
    }
    forall x | x in s.level0 ensures x in s.jobs {
      assert Placed(s)[x] >= multiset(s.level0)[x] > 0;
    }
    forall x | x in s.level1 ensures x in s.jobs {
      assert Placed(s)[x] >= multiset(s.level1)[x] > 0;
    }
    forall x | x in s.level2 ensures x in s.jobs {
      assert Placed(s)[x] >= multiset(s.level2)[x] > 0;
    }
    if s.running.Some? {
      assert Placed(s)[s.running.value] >= multiset(RunningSeq(s))[s.running.value] > 0;
    }
  }

  /** A state with the same places and the same records as a well-formed one
      is well-formed. */
  lemma WfKept(s: State, r: State)
    requires Wf(s) && Placed(r) == Placed(s) && r.jobs.Keys == s.jobs.Keys
    ensures Wf(r)
  {
    WfFromPlaced(r);
  }

  /** Placed split by place. */
  lemma PlacedByLevel(s: State)
    ensures Placed(s) == multiset(s.arrivals) + multiset(Level(s, 0)) + multiset(Level(s, 1))
                         + multiset(Level(s, 2)) + multiset(RunningSeq(s))
  {
    var qs := Places(s);
    assert Bag(qs[1..][1..][1..][1..]) == multiset(RunningSeq(s));
    assert Bag(qs[1..][1..][1..]) == multiset(s.level2) + multiset(RunningSeq(s));
    assert Bag(qs[1..][1..]) == multiset(s.level1) + multiset(s.level2) + multiset(RunningSeq(s));
    assert Bag(qs[1..]) == multiset(s.level0) + multiset(s.level1) + multiset(s.level2)
                           + multiset(RunningSeq(s));
  }

  /** The places change only in level `k` and the arrival queue, and the
      same jobs are in those two together before and after. */
  lemma PlacedMoved(s: State, r: State, k: int)
    requires 0 <= k <= 2
    requires forall k' :: 0 <= k' <= 2 && k' != k ==> Level(r, k') == Level(s, k')
    requires r.running == s.running
    requires multiset(Level(r, k)) + multiset(r.arrivals)
          == multiset(Level(s, k)) + multiset(s.arrivals)
    ensures Placed(r) == Placed(s)
  {
    PlacedByLevel(s);
    PlacedByLevel(r);
    if k == 0 {
      assert Level(r, 1) == Level(s, 1) && Level(r, 2) == Level(s, 2);
    } else if k == 1 {
      assert Level(r, 0) == Level(s, 0) && Level(r, 2) == Level(s, 2);
    } else {
      assert Level(r, 0) == Level(s, 0) && Level(r, 1) == Level(s, 1);
    }
    forall x ensures Placed(r)[x] == Placed(s)[x] {
      var mr := multiset(Level(r, k)) + multiset(r.arrivals);
      var ms := multiset(Level(s, k)) + multiset(s.arrivals);
      assert mr[x] == ms[x];
    }
  }

  /** Level `k` appended to level 0 and emptied: the places are the same. */
  lemma PlacedMerged(s: State, r: State, k: int)
    requires k == 1 || k == 2
    requires r.arrivals == s.arrivals && r.running == s.running
    requires r.level0 == s.level0 + Level(s, k) && Level(r, k) == []
    requires k == 1 ==> r.level2 == s.level2
    requires k == 2 ==> r.level1 == s.level1
    ensures Placed(r) == Placed(s)
  {
    PlacedByLevel(s);
    PlacedByLevel(r);
  }

  /** The places change only in level `k` and on the CPU, and the same
      jobs are in those two together before and after. */
  lemma PlacedSwap(s: State, r: State, k: int)
    requires 0 <= k <= 2
    requires r.arrivals == s.arrivals
    requires forall k' :: 0 <= k' <= 2 && k' != k ==> Level(r, k') == Level(s, k')
    requires multiset(Level(r, k)) + multiset(RunningSeq(r))
          == multiset(Level(s, k)) + multiset(RunningSeq(s))
    ensures Placed(r) == Placed(s)
  {
    PlacedByLevel(s);
    PlacedByLevel(r);
    if k == 0 {
      assert Level(r, 1) == Level(s, 1) && Level(r, 2) == Level(s, 2);
    } else if k == 1 {
      assert Level(r, 0) == Level(s, 0) && Level(r, 2) == Level(s, 2);
    } else {
      assert Level(r, 0) == Level(s, 0) && Level(r, 1) == Level(s, 1);
    }
    forall x ensures Placed(r)[x] == Placed(s)[x] {
      var mr := multiset(Level(r, k)) + multiset(RunningSeq(r));
      var ms := multiset(Level(s, k)) + multiset(RunningSeq(s));
      assert mr[x] == ms[x];
    }
  }

  /** Releasing the record of a placed job that leaves its place keeps the
      state well-formed. */
  lemma WfRemoved(s: State, r: State, id: JobId)
    requires Wf(s)
    requires Placed(r) + multiset{id} == Placed(s)
    requires r.jobs == s.jobs - {id}
    ensures Wf(r)
  {
    forall x ensures Placed(r)[x] <= multiset(r.jobs.Keys)[x] {
      assert Placed(s)[x] <= multiset(s.jobs.Keys)[x];
      if x == id {
        assert Placed(s)[x] == Placed(r)[x] + 1;
      }
    }
    WfFromPlaced(r);
  }

  /** The loop guard: something runs or some queue is non-empty. */
  predicate Active(s: State)
  {
    s.running.Some? || s.arrivals != [] || s.level0 != [] || s.level1 != [] || s.level2 != []
  }

  // ---------------------------------------------------------------------
  // Admission

  /** Every id in the arrival queue has a record: all admission needs. */
  predicate ArrivalsKnown(s: State)
  {
    forall x :: x in s.arrivals ==> x in s.jobs
  }

  /** The head of the arrival queue has arrived. */
  predicate Due(s: State)
    requires ArrivalsKnown(s)
  {
    s.arrivals != [] && s.jobs[s.arrivals[0]].arrivalTime <= s.timer
  }

  /** The ids of `ids`, in order, whose initial priority routes them to level `k`. */
  function Routed(jobs: map<JobId, Job>, ids: seq<JobId>, k: int): seq<JobId>
    requires forall x :: x in ids ==> x in jobs
  {
    if ids == [] then []
    else (if LevelOf(jobs[ids[0]].initialPriority) == k then [ids[0]] else []) + Routed(jobs, ids[1..], k)
  }

  /** The longest prefix of `q` whose jobs have all arrived by `timer`. */
  function DuePrefix(jobs: map<JobId, Job>, q: seq<JobId>, timer: int): (r: seq<JobId>)
    requires forall x :: x in q ==> x in jobs
    ensures forall x :: x in r ==> x in q
  {
    if q != [] && jobs[q[0]].arrivalTime <= timer then [q[0]] + DuePrefix(jobs, q[1..], timer) else []
  }

  /** Two arenas with the same jobs, none of whose demand or history differs. */
  predicate SameArena(a: map<JobId, Job>, b: map<JobId, Job>)
  {
    a.Keys == b.Keys && forall x :: x in a ==> SameWork(a[x], b[x])
  }

  /** Admission of the arrival-queue head: it leaves the arrival queue, its
      record restarts at its initial priority, and it joins the tail of that
      level. */
  function AdmitOne(s: State): (r: State)
    requires ArrivalsKnown(s) && s.arrivals != []
    ensures ArrivalsKnown(r) && r.arrivals == s.arrivals[1..]
    ensures r.running == s.running && r.timer == s.timer
    ensures r.metrics == s.metrics && r.released == s.released
    ensures SameArena(s.jobs, r.jobs)
    ensures var id := s.arrivals[0];
            && r.jobs == s.jobs[id := Admitted(s.jobs[id], s.timer)]
            && forall k :: 0 <= k <= 2 ==>
                 Level(r, k) == Level(s, k) + (if LevelOf(s.jobs[id].initialPriority) == k then [id] else [])
  {
    var (id, rest) := Dequeue(s.arrivals).value;
    var j := Admitted(s.jobs[id], s.timer);
    var t := s.(arrivals := rest, jobs := s.jobs[id := j]);
    WithLevel(t, LevelOf(j.priority), EnqueueTail(Level(t, LevelOf(j.priority)), id))
  }

  /** Admission (mlq.c:239-255): while the arrival-queue head has arrived, it
      is admitted. Admission stops at the first head that has not arrived,
      touches neither the CPU, the clock nor the metrics, and changes no
      job's demand or history. */
  function Admit(s: State): (r: State)
    requires ArrivalsKnown(s)
    ensures ArrivalsKnown(r) && SameArena(s.jobs, r.jobs)
    ensures r.running == s.running && r.timer == s.timer
    ensures r.metrics == s.metrics && r.released == s.released
    ensures |r.arrivals| <= |s.arrivals|
    ensures !Due(r)
    decreases |s.arrivals|
  {
    if Due(s) then Admit(AdmitOne(s)) else s
  }

  /** The due prefix depends only on arrival times. */
  lemma {:induction false} DuePrefixFrame(a: map<JobId, Job>, b: map<JobId, Job>, q: seq<JobId>, timer: int)
    requires SameArena(a, b) && forall x :: x in q ==> x in a
    ensures DuePrefix(a, q, timer) == DuePrefix(b, q, timer)
    decreases |q|
  {
    if q != [] {
      DuePrefixFrame(a, b, q[1..], timer);
    }
  }

  /** Routing depends only on initial priorities. */
  lemma {:induction false} RoutedFrame(a: map<JobId, Job>, b: map<JobId, Job>, ids: seq<JobId>, k: int)
    requires SameArena(a, b) && forall x :: x in ids ==> x in a
    ensures Routed(a, ids, k) == Routed(b, ids, k)
    decreases |ids|
  {
    if ids != [] {
      RoutedFrame(a, b, ids[1..], k);
    }
  }

  /** Whether the arrival-queue head is due depends only on the queue, the
      clock and the arrival times. */
  lemma NotDueKept(a: State, r: State)
    requires ArrivalsKnown(a) && !Due(a)
    requires r.arrivals == a.arrivals && r.timer == a.timer && SameArena(a.jobs, r.jobs)
    ensures ArrivalsKnown(r) && !Due(r)
  {
    if a.arrivals != [] {
      assert SameWork(a.jobs[a.arrivals[0]], r.jobs[a.arrivals[0]]);
    }
  }

  /** SameArena is transitive. */
  lemma SameArenaTrans(a: map<JobId, Job>, b: map<JobId, Job>, c: map<JobId, Job>)
    requires SameArena(a, b) && SameArena(b, c)
    ensures SameArena(a, c)
  {
  }

  /** One admission step, with only what the prefix argument needs. */
  lemma AdmitStep(s: State) returns (t: State)
    requires ArrivalsKnown(s) && Due(s)
    ensures ArrivalsKnown(t) && SameArena(s.jobs, t.jobs) && t.timer == s.timer
    ensures t.arrivals == s.arrivals[1..]
    ensures Admit(s) == Admit(t)
  {
    t := AdmitOne(s);
  }

  /** If the tail of a queue with a due head splits into its due prefix
      and a remainder, the whole queue splits into its due prefix and the
      same remainder. */
  lemma DuePrefixCons(a: map<JobId, Job>, b: map<JobId, Job>, q: seq<JobId>, timer: int, rest: seq<JobId>)
    requires SameArena(a, b) && forall x :: x in q ==> x in a
    requires q != [] && a[q[0]].arrivalTime <= timer
    requires q[1..] == DuePrefix(b, q[1..], timer) + rest
    ensures q == DuePrefix(a, q, timer) + rest
  {
    DuePrefixFrame(a, b, q[1..], timer);
    var p := DuePrefix(a, q[1..], timer);
    assert q == [q[0]] + q[1..];
    ConsSplit(q, q[0], q[1..], p, rest);
  }

  /** Admission takes exactly the due prefix off the arrival queue: the
      admitted jobs are its longest prefix of arrived jobs, and the rest
      stays in order. */
  lemma {:induction false} AdmitTakesDuePrefix(s: State)
    requires ArrivalsKnown(s)
    ensures s.arrivals == DuePrefix(s.jobs, s.arrivals, s.timer) + Admit(s).arrivals
    decreases |s.arrivals|
  {
    if Due(s) {
      var t := AdmitStep(s);
      AdmitTakesDuePrefix(t);
      DuePrefixCons(s.jobs, t.jobs, s.arrivals, s.timer, Admit(t).arrivals);
    } else {
      assert DuePrefix(s.jobs, s.arrivals, s.timer) == [];
      assert [] + s.arrivals == s.arrivals;
    }
  }

  /** The admitted jobs are appended, in arrival-queue order, to the level
      their initial priority names. */
  lemma {:induction false} AdmitRoutes(s: State, k: int)
    requires ArrivalsKnown(s) && 0 <= k <= 2
    ensures Level(Admit(s), k) == Level(s, k) + Routed(s.jobs, DuePrefix(s.jobs, s.arrivals, s.timer), k)
    decreases |s.arrivals|
  {
    if Due(s) {
      var t := AdmitOne(s);
      assert Admit(s) == Admit(t);
      AdmitRoutes(t, k);
      DuePrefixFrame(t.jobs, s.jobs, t.arrivals, s.timer);
      var h := s.arrivals[0];
      var rest := DuePrefix(s.jobs, t.arrivals, s.timer);
      RoutedFrame(t.jobs, s.jobs, rest, k);
      assert ([h] + rest)[1..] == rest;
      assert DuePrefix(s.jobs, s.arrivals, s.timer) == [h] + rest;
      assert Level(t, k) == Level(s, k) + (if LevelOf(s.jobs[h].initialPriority) == k then [h] else []);
      RouteHead(s.jobs, [h] + rest, Level(s, k), Level(t, k), Level(Admit(t), k), k);
    }
  }

  /** A queue whose tail splits at some point splits one later with its head. */
  lemma ConsSplit(q: seq<JobId>, h: JobId, t: seq<JobId>, p: seq<JobId>, rest: seq<JobId>)
    requires q == [h] + t && t == p + rest
    ensures q == ([h] + p) + rest
  {
  }

  /** One routing step: the head goes to level `k` if its priority names
      `k`, and the rest are routed behind it. */
  lemma RouteHead(jobs: map<JobId, Job>, ids: seq<JobId>, before: seq<JobId>, mid: seq<JobId>,
                  after: seq<JobId>, k: int)
    requires ids != [] && forall x :: x in ids ==> x in jobs
    requires mid == before + (if LevelOf(jobs[ids[0]].initialPriority) == k then [ids[0]] else [])
    requires after == mid + Routed(jobs, ids[1..], k)
    ensures after == before + Routed(jobs, ids, k)
  {
    var rest := Routed(jobs, ids[1..], k);
    if LevelOf(jobs[ids[0]].initialPriority) == k {
      assert Routed(jobs, ids, k) == [ids[0]] + rest;
      Assoc(before, [ids[0]], rest);
    } else {
      assert Routed(jobs, ids, k) == rest;
      assert mid == before;
    }
  }

  /** Appending is associative. */
  lemma Assoc(a: seq<JobId>, b: seq<JobId>, c: seq<JobId>)
    ensures (a + b) + c == a + (b + c)
  {
  }

  /** The admitted records restart at their initial priority with cleared
      counters and both stamps at the current tick; no other record changes. */
  lemma {:induction false} AdmitRecords(s: State)
    requires ArrivalsKnown(s)
    ensures var moved := DuePrefix(s.jobs, s.arrivals, s.timer);
            forall x :: x in s.jobs ==>
              Admit(s).jobs[x] == if x in moved then Admitted(s.jobs[x], s.timer) else s.jobs[x]
    decreases |s.arrivals|
  {
    if Due(s) {
      var t := AdmitOne(s);
      var r := Admit(t);
      assert Admit(s) == r;
      AdmitRecords(t);
      DuePrefixFrame(t.jobs, s.jobs, t.arrivals, s.timer);
      var h := s.arrivals[0];
      var rest := DuePrefix(s.jobs, t.arrivals, s.timer);
      assert DuePrefix(s.jobs, s.arrivals, s.timer) == [h] + rest;
      forall x | x in s.jobs
        ensures r.jobs[x] == if x in [h] + rest then Admitted(s.jobs[x], s.timer) else s.jobs[x]
      {
        if x == h {
          assert t.jobs[x] == Admitted(s.jobs[x], s.timer);
          if x in rest {
            AdmittedTwice(s.jobs[x], s.timer);
          }
        }
      }
    }
  }

  /** Admitting a record twice at the same tick is admitting it once. */
  lemma AdmittedTwice(j: Job, timer: int)
    ensures Admitted(Admitted(j, timer), timer) == Admitted(j, timer)
  {
  }

  /** Routing sends every id to exactly one of the three levels. */
  lemma {:induction false} RoutedPartition(jobs: map<JobId, Job>, ids: seq<JobId>)
    requires forall x :: x in ids ==> x in jobs
    ensures multiset(Routed(jobs, ids, 0)) + multiset(Routed(jobs, ids, 1)) + multiset(Routed(jobs, ids, 2))
         == multiset(ids)
    decreases |ids|
  {
    if ids != [] {
      var h, rest := ids[0], ids[1..];
      var lv := LevelOf(jobs[h].initialPriority);
      var e0 := if lv == 0 then multiset{h} else multiset{};
      var e1 := if lv == 1 then multiset{h} else multiset{};
      var e2 := if lv == 2 then multiset{h} else multiset{};
      var a0, a1, a2 := multiset(Routed(jobs, rest, 0)), multiset(Routed(jobs, rest, 1)), multiset(Routed(jobs, rest, 2));
      var m0, m1, m2 := multiset(Routed(jobs, ids, 0)), multiset(Routed(jobs, ids, 1)), multiset(Routed(jobs, ids, 2));
      assert a0 + a1 + a2 == multiset(rest) by {
        RoutedPartition(jobs, rest);
      }
      assert m0 == e0 + a0 by {
        RoutedStep(jobs, ids, 0);
      }
      assert m1 == e1 + a1 by {
        RoutedStep(jobs, ids, 1);
      }
      assert m2 == e2 + a2 by {
        RoutedStep(jobs, ids, 2);
      }
      assert multiset(ids) == multiset{h} + multiset(rest) by {
        assert ids == [h] + rest;
      }
      assert e0 + e1 + e2 == multiset{h} by {
        OneLevel(lv, h);
      }
      Regroup(m0, m1, m2, e0, e1, e2, a0, a1, a2, multiset(rest), multiset(ids), h);
    }
  }

  /** A job routed to one level: it is in exactly one of the three. */
  lemma OneLevel(lv: int, h: JobId)
    requires 0 <= lv <= 2
    ensures (if lv == 0 then multiset{h} else multiset{}) + (if lv == 1 then multiset{h} else multiset{})
            + (if lv == 2 then multiset{h} else multiset{}) == multiset{h}
  {
  }

  /** One step of the partition, on the bags alone. */
  lemma Regroup(m0: multiset<JobId>, m1: multiset<JobId>, m2: multiset<JobId>,
                e0: multiset<JobId>, e1: multiset<JobId>, e2: multiset<JobId>,
                a0: multiset<JobId>, a1: multiset<JobId>, a2: multiset<JobId>,
                rest: multiset<JobId>, all: multiset<JobId>, h: JobId)
    requires m0 == e0 + a0 && m1 == e1 + a1 && m2 == e2 + a2
    requires e0 + e1 + e2 == multiset{h} && a0 + a1 + a2 == rest
    requires all == multiset{h} + rest
    ensures m0 + m1 + m2 == all
  {
  }

  /** Routing a non-empty list: the head joins level `k` or not, and the
      rest is routed after it. */
  lemma RoutedStep(jobs: map<JobId, Job>, ids: seq<JobId>, k: int)
    requires ids != [] && forall x :: x in ids ==> x in jobs
    ensures multiset(Routed(jobs, ids, k))
         == (if LevelOf(jobs[ids[0]].initialPriority) == k then multiset{ids[0]} else multiset{})
            + multiset(Routed(jobs, ids[1..], k))
  {
  }

  /** Admission only moves jobs: a well-formed state stays well-formed, with
      every job in as many places as before. */
  lemma AdmitKeepsPlaces(s: State)
    requires Wf(s)
    ensures Wf(Admit(s)) && Placed(Admit(s)) == Placed(s)
  {
    var r := Admit(s);
    var moved := DuePrefix(s.jobs, s.arrivals, s.timer);
    AdmitTakesDuePrefix(s);
    AdmitRoutes(s, 0);
    AdmitRoutes(s, 1);
    AdmitRoutes(s, 2);
    RoutedPartition(s.jobs, moved);
    PlacedByLevel(s);
    PlacedByLevel(r);
    forall x ensures Placed(r)[x] == Placed(s)[x] {
      var m0 := multiset(Routed(s.jobs, moved, 0));
      var m1 := multiset(Routed(s.jobs, moved, 1));
      var m2 := multiset(Routed(s.jobs, moved, 2));
      assert (m0 + m1 + m2)[x] == multiset(moved)[x];
      assert multiset(s.arrivals)[x] == multiset(moved)[x] + multiset(r.arrivals)[x];
    }
    WfKept(s, r);
  }

  // ---------------------------------------------------------------------
  // Aging

  /** Level `k` is non-empty and its head has waited at least `w` ticks
      since it was last placed in the level. */
  predicate Starved(s: State, k: int, w: int)
    requires Wf(s)
  {
    Level(s, k) != [] && s.timer - s.jobs[Level(s, k)[0]].lastEnqueuedTime >= w
  }

  /** The records of the jobs in `q` promoted; every other record as it was. */
  function PromoteAll(jobs: map<JobId, Job>, q: seq<JobId>, timer: int): (m: map<JobId, Job>)
    ensures m.Keys == jobs.Keys
    ensures forall x :: x in m ==> m[x] == if x in q then Promoted(jobs[x], timer) else jobs[x]
  {
    var m := map x | x in jobs :: if x in q then Promoted(jobs[x], timer) else jobs[x];
    assert m.Keys == jobs.Keys;
    m
  }

  /** upgrade_to_level0 (mlq.c:61-73): every job of level `k` is promoted and
      the whole level is appended to level 0, which keeps every job in the
      scheduler exactly where it was counted. */
  function Upgrade(s: State, k: int): (r: State)
    requires Wf(s) && (k == 1 || k == 2)
    ensures Wf(r) && Placed(r) == Placed(s) && r.jobs.Keys == s.jobs.Keys
    ensures r.arrivals == s.arrivals && r.running == s.running && r.timer == s.timer
    ensures r.metrics == s.metrics && r.released == s.released
    ensures Level(r, k) == [] && r.level0 == s.level0 + Level(s, k)
    ensures k == 1 ==> r.level2 == s.level2
    ensures k == 2 ==> r.level1 == s.level1
    ensures forall x :: x in r.jobs ==>
              r.jobs[x] == if x in Level(s, k) then Promoted(s.jobs[x], s.timer) else s.jobs[x]
    ensures SameArena(s.jobs, r.jobs)
  {
    var q := Level(s, k);
    var (l0, src) := AppendQueue(s.level0, q);
    var a := s.(jobs := PromoteAll(s.jobs, q, s.timer), level0 := l0);
    var r := WithLevel(a, k, src);
    PlacedMerged(s, r, k);
    WfKept(s, r);
    r
  }

  /** Aging (mlq.c:257-270): a starved level-1 head promotes all of level 1
      and then all of level 2; independently, a starved level-2 head still
      left promotes all of level 2. */
  function Age(s: State, w: int): (r: State)
    requires Wf(s)
    ensures Wf(r) && Placed(r) == Placed(s) && r.jobs.Keys == s.jobs.Keys
    ensures r.arrivals == s.arrivals && r.running == s.running && r.timer == s.timer
    ensures r.metrics == s.metrics && r.released == s.released && SameArena(s.jobs, r.jobs)
    // no level-2 head is left starved
    ensures !Starved(r, 2, w)
  {
    var s1 := if Starved(s, 1, w) then Upgrade(Upgrade(s, 1), 2) else s;
    if Starved(s1, 2, w) then Upgrade(s1, 2) else s1
  }

  /** The effect of aging on the levels in closed form: which levels move
      to level 0, and in which order. */
  lemma AgeLevels(s: State, w: int)
    requires Wf(s)
    ensures var r := Age(s, w);
            var up1 := Starved(s, 1, w);
            var up2 := up1 || Starved(s, 2, w);
            && r.level0 == s.level0 + (if up1 then s.level1 else []) + (if up2 then s.level2 else [])
            && r.level1 == (if up1 then [] else s.level1)
            && r.level2 == (if up2 then [] else s.level2)
  {
    var r := Age(s, w);
    if Starved(s, 1, w) {
      var b := Upgrade(Upgrade(s, 1), 2);
      assert !Starved(b, 2, w);
      assert r == b;
    } else if Starved(s, 2, w) {
      assert r == Upgrade(s, 2);
      assert s.level0 + [] + s.level2 == s.level0 + s.level2;
    }
  }

  /** The records after aging: exactly the jobs of the promoted levels are
      promoted. */
  lemma AgeRecords(s: State, w: int)
    requires Wf(s)
    ensures var r := Age(s, w);
            var up1 := Starved(s, 1, w);
            var up2 := up1 || Starved(s, 2, w);
            forall x :: x in r.jobs ==>
              r.jobs[x] == if (up1 && x in s.level1) || (up2 && x in s.level2)
                           then Promoted(s.jobs[x], s.timer) else s.jobs[x]
  {
    var r := Age(s, w);
    if Starved(s, 1, w) {
      var a := Upgrade(s, 1);
      var b := Upgrade(a, 2);
      assert !Starved(b, 2, w);
      assert r == b;
      forall x | x in r.jobs
        ensures r.jobs[x] == if x in s.level1 || x in s.level2 then Promoted(s.jobs[x], s.timer) else s.jobs[x]
      {
        assert b.jobs[x] == if x in a.level2 then Promoted(a.jobs[x], a.timer) else a.jobs[x];
      }
    } else if Starved(s, 2, w) {
      assert r == Upgrade(s, 2);
    }
  }

  /** The effect of aging in closed form. */
  lemma AgeSpec(s: State, w: int)
    requires Wf(s)
    ensures var r := Age(s, w);
            var up1 := Starved(s, 1, w);
            var up2 := up1 || Starved(s, 2, w);
            && r.level0 == s.level0 + (if up1 then s.level1 else []) + (if up2 then s.level2 else [])
            && r.level1 == (if up1 then [] else s.level1)
            && r.level2 == (if up2 then [] else s.level2)
            && forall x :: x in r.jobs ==>
                 r.jobs[x] == if (up1 && x in s.level1) || (up2 && x in s.level2)
                              then Promoted(s.jobs[x], s.timer) else s.jobs[x]
  {
    AgeLevels(s, w);
    AgeRecords(s, w);
  }

  // ---------------------------------------------------------------------
  // Preemption

  /** A job of level 1 yields to level 0; a job of level 2 yields to level 0
      or level 1; a level-0 job is never preempted. */
  predicate MustYield(s: State, p: int)
  {
    (p == 1 && s.level0 != []) || (p == 2 && (s.level0 != [] || s.level1 != []))
  }

  /** A running job yields exactly when some level of higher priority than
      its own holds a job. */
  lemma MustYieldIffHigherWaits(s: State, p: int)
    requires 0 <= p <= 2
    ensures MustYield(s, p) <==> exists k :: 0 <= k < p && Level(s, k) != []
  {
    if MustYield(s, p) {
      var k := if s.level0 != [] then 0 else 1;
      assert Level(s, k) != [];
    }
  }

  /** preempt_to_front (mlq.c:118-132): the running job is suspended and put
      back at the front of its own level. A suspension that `stuck` lists
      for this job and tick fails, which aborts the simulation. Only the ready-entry stamp
      moves, so the aging clock keeps running; the quantum restarts unless
      the job is at level 2. */
  function PreemptToFront(s: State, stuck: Failures): (r: Outcome)
    requires Wf(s) && s.running.Some?
    ensures !r.Halt?
    ensures r.Abort? <==> (s.running.value, s.timer) in stuck
    ensures r.Abort? ==> r.job == s.running.value
    ensures r.Next? ==>
              var id := s.running.value;
              var j := s.jobs[id];
              var k := LevelOf(j.priority);
              var t := r.state;
              && Wf(t) && Placed(t) == Placed(s) && t.jobs.Keys == s.jobs.Keys
              && t.running.None?
              && Level(t, k) == [id] + Level(s, k)
              && (forall k' :: 0 <= k' <= 2 && k' != k ==> Level(t, k') == Level(s, k'))
              && t.arrivals == s.arrivals && t.timer == s.timer
              && t.metrics == s.metrics && t.released == s.released
              && t.jobs == s.jobs[id := t.jobs[id]]
              && SameWork(j, t.jobs[id])
              && t.jobs[id].priority == j.priority
              && t.jobs[id].timeAtCurrentLevel == j.timeAtCurrentLevel
              && t.jobs[id].timeInCurrentQuantum == (if j.priority == 2 then j.timeInCurrentQuantum else 0)
              && t.jobs[id].lastReadyQueueEntryTime == s.timer
              && t.jobs[id].lastEnqueuedTime == j.lastEnqueuedTime
  {
    var id := s.running.value;
    if (id, s.timer) in stuck then Abort(id)
    else
      var j := s.jobs[id];
      var k := LevelOf(j.priority);
      var t := WithLevel(s, k, EnqueueFront(Level(s, k), id));
      var r := t.(running := None, jobs := s.jobs[id := Preempted(j, s.timer)]);
      PlacedSwap(s, r, k);
      WfKept(s, r);
      Next(r)
  }

  /** The preemption check (mlq.c:272-278): the running job keeps the CPU
      exactly when nothing of higher priority waits; otherwise it is put
      back at the front of its level. */
  function Preempt(s: State, stuck: Failures): (r: Outcome)
    requires Wf(s)
    ensures !r.Halt?
    ensures r.Next? ==> Wf(r.state) && Placed(r.state) == Placed(s) && r.state.jobs.Keys == s.jobs.Keys
    ensures r.Next? ==> r.state.timer == s.timer && r.state.released == s.released
    ensures r.Next? ==> r.state.arrivals == s.arrivals && SameArena(s.jobs, r.state.jobs)
    ensures r.Next? ==> r.state.metrics == s.metrics
    ensures r.Abort? ==> s.running == Some(r.job) && (r.job, s.timer) in stuck
    ensures s.running.None? || !MustYield(s, s.jobs[s.running.value].priority) <==> r == Next(s)
    ensures s.running.Some? && MustYield(s, s.jobs[s.running.value].priority) ==>
              r == PreemptToFront(s, stuck)
  {
    if s.running.Some? && MustYield(s, s.jobs[s.running.value].priority) then
      PreemptToFront(s, stuck)
    else
      Next(s)
  }

  // ---------------------------------------------------------------------
  // Dispatch

  /** select_next_process (mlq.c:134-146): the head of the highest-priority
      non-empty level, with the level it is taken from. */
  function SelectNext(s: State): (r: Option<(JobId, int)>)
    ensures r.None? <==> s.level0 == [] && s.level1 == [] && s.level2 == []
    ensures r.Some? ==>
              var (id, k) := r.value;
              && 0 <= k <= 2
              && Level(s, k) != [] && id == Level(s, k)[0]
              && forall k' :: 0 <= k' < k ==> Level(s, k') == []
  {
    if s.level0 != [] then Some((s.level0[0], 0))
    else if s.level1 != [] then Some((s.level1[0], 1))
    else if s.level2 != [] then Some((s.level2[0], 2))
    else None
  }

  /** Dispatch (mlq.c:280-288 with start_running_process, mlq.c:75-88): when
      the CPU is free, the selected head is removed from its level and runs. */
  function Dispatch(s: State): (r: State)
    requires Wf(s)
    ensures Wf(r) && Placed(r) == Placed(s) && r.jobs.Keys == s.jobs.Keys
    ensures s.running.Some? || r.running.None? ==> r == s
    ensures r.arrivals == s.arrivals && r.timer == s.timer
    ensures r.metrics == s.metrics && r.released == s.released
    // the CPU stays idle only when every level is empty
    ensures r.running.None? <==> s.running.None? && s.level0 == [] && s.level1 == [] && s.level2 == []
    // strict priority: level 1 and level 2 are untouched while level 0 has a job
    ensures s.running.None? && s.level0 != [] ==>
              r.running == Some(s.level0[0]) && r.level0 == s.level0[1..]
              && r.level1 == s.level1 && r.level2 == s.level2
    ensures s.running.None? && s.level0 == [] && s.level1 != [] ==>
              r.running == Some(s.level1[0]) && r.level1 == s.level1[1..] && r.level2 == s.level2
    ensures s.running.None? && s.level0 == [] && s.level1 == [] && s.level2 != [] ==>
              r.running == Some(s.level2[0]) && r.level2 == s.level2[1..]
  {
    if s.running.Some? then s
    else
      match SelectNext(s)
      case None => s
      case Some((id, k)) => StartHead(s, k)
  }

  /** The head of level `k` is dequeued and becomes the running job, with
      its record updated for dispatch. */
  function StartHead(s: State, k: int): (r: State)
    requires Wf(s) && s.running.None? && 0 <= k <= 2 && Level(s, k) != []
    ensures Wf(r) && Placed(r) == Placed(s) && r.jobs.Keys == s.jobs.Keys
    ensures r.running == Some(Level(s, k)[0]) && Level(r, k) == Level(s, k)[1..]
    ensures forall k' :: 0 <= k' <= 2 && k' != k ==> Level(r, k') == Level(s, k')
    ensures r.arrivals == s.arrivals && r.timer == s.timer
    ensures r.metrics == s.metrics && r.released == s.released
    ensures r.jobs == s.jobs[Level(s, k)[0] := Dispatched(s.jobs[Level(s, k)[0]], s.timer)]
  {
    var (id, rest) := Dequeue(Level(s, k)).value;
    var t := WithLevel(s, k, rest);
    var r := t.(jobs := s.jobs[id := Dispatched(s.jobs[id], s.timer)], running := Some(id));
    assert Level(s, k) == [id] + rest;
    PlacedSwap(s, r, k);
    WfKept(s, r);
    r
  }

  /** The record of the dispatched job (start_running_process, mlq.c:75-88,
      and the level-counter reset at mlq.c:283-285): the wait since it last
      became ready is accrued, start and response time are stamped on the
      first dispatch only, the level counter survives only at level 1, and
      no other record changes. */
  lemma DispatchRecord(s: State)
    requires Wf(s) && s.running.None?
    ensures var r := Dispatch(s);
            r.running.Some? ==>
              var id := r.running.value;
              var j := s.jobs[id];
              var d := r.jobs[id];
              && r.jobs == s.jobs[id := d]
              && d.id == j.id && d.arrivalTime == j.arrivalTime && d.serviceTime == j.serviceTime
              && d.initialPriority == j.initialPriority && d.remainingCpuTime == j.remainingCpuTime
              && d.priority == j.priority && d.timeInCurrentQuantum == j.timeInCurrentQuantum
              && d.lastReadyQueueEntryTime == j.lastReadyQueueEntryTime
              && d.lastEnqueuedTime == j.lastEnqueuedTime
              && d.completionTime == j.completionTime
              && d.timeAtCurrentLevel == (if j.priority == 1 then j.timeAtCurrentLevel else 0)
              && d.totalWaitTime == j.totalWaitTime + (s.timer - j.lastReadyQueueEntryTime)
              && (j.startTime < 0 ==> d.startTime == s.timer && d.responseTime == s.timer - j.arrivalTime)
              && (j.startTime >= 0 ==> d.startTime == j.startTime && d.responseTime == j.responseTime)
  {
    var r := Dispatch(s);
    if r.running.Some? {
      var id := r.running.value;
      assert r.jobs == s.jobs[id := Dispatched(s.jobs[id], s.timer)];
    }
  }

  // ---------------------------------------------------------------------
  // Running one tick, completion, quantum expiry

  /** The clock advances by one tick (mlq.c:295, mlq.c:300). */
  function Advance(s: State): (r: State)
    ensures r.timer == s.timer + 1
    ensures r == s.(timer := r.timer)
  {
    s.(timer := s.timer + 1)
  }

  /** The running job consumes one tick (mlq.c:299-306). */
  function Consume(s: State): (r: State)
    requires Wf(s) && s.running.Some?
    ensures Wf(r)
    ensures r.timer == s.timer + 1
    ensures r.running == s.running && r.arrivals == s.arrivals
    ensures r.level0 == s.level0 && r.level1 == s.level1 && r.level2 == s.level2
    ensures r.metrics == s.metrics && r.released == s.released
    ensures var id := s.running.value;
            var j := s.jobs[id];
            var c := r.jobs[id];
            && r.jobs == s.jobs[id := c]
            && c.remainingCpuTime == j.remainingCpuTime - 1
            && c.timeInCurrentQuantum == j.timeInCurrentQuantum + 1
            && c.timeAtCurrentLevel == j.timeAtCurrentLevel + (if j.priority == 1 then 1 else 0)
            && c == j.(remainingCpuTime := c.remainingCpuTime,
                       timeInCurrentQuantum := c.timeInCurrentQuantum,
                       timeAtCurrentLevel := c.timeAtCurrentLevel)
  {
    var id := s.running.value;
    Advance(s).(jobs := s.jobs[id := Consumed(s.jobs[id])])
  }

  /** handle_completion (mlq.c:90-100): the running job is stamped, folded
      into the totals and released from the arena. */
  function Complete(s: State): (r: State)
    requires Wf(s) && s.running.Some?
    ensures Wf(r)
    ensures var id := s.running.value;
            var j := s.jobs[id];
            && r.running.None?
            && r.jobs == s.jobs - {id}
            && Placed(r) + multiset{id} == Placed(s)
            && r.released == s.released + [j.(completionTime := s.timer)]
            && r.metrics.completedJobs == s.metrics.completedJobs + 1
            && r.metrics.totalJobs == s.metrics.totalJobs
            && r.metrics.totalTurnaround == s.metrics.totalTurnaround + (s.timer - j.arrivalTime)
            && r.metrics.totalWaiting == s.metrics.totalWaiting + j.totalWaitTime
            && r.metrics.totalResponse == s.metrics.totalResponse + j.responseTime
    ensures r.arrivals == s.arrivals && r.timer == s.timer
    ensures r.level0 == s.level0 && r.level1 == s.level1 && r.level2 == s.level2
  {
    var id := s.running.value;
    var j := Completed(s.jobs[id], s.timer);
    var m := s.metrics;
    var m' := m.(totalTurnaround := m.totalTurnaround + (j.completionTime - j.arrivalTime),
                 totalWaiting := m.totalWaiting + j.totalWaitTime,
                 totalResponse := m.totalResponse + j.responseTime,
                 completedJobs := m.completedJobs + 1);
    var r := s.(jobs := s.jobs - {id}, running := None, metrics := m', released := s.released + [j]);
    PlacedByLevel(s);
    PlacedByLevel(r);
    WfRemoved(s, r, id);
    r
  }

  /** demote_to_level (mlq.c:102-116): the running job is suspended and
      enqueued afresh at the tail of level `p`, both counters cleared and
      both stamps at the current tick. */
  function DemoteToLevel(s: State, stuck: Failures, p: int): (r: Outcome)
    requires Wf(s) && s.running.Some? && 0 <= p <= 2
    ensures !r.Halt?
    ensures r.Abort? <==> (s.running.value, s.timer) in stuck
    ensures r.Abort? ==> r.job == s.running.value
    ensures r.Next? ==>
              var id := s.running.value;
              var j := s.jobs[id];
              var t := r.state;
              && Wf(t) && Placed(t) == Placed(s) && t.jobs.Keys == s.jobs.Keys
              && t.running.None?
              && Level(t, p) == Level(s, p) + [id]
              && (forall k' :: 0 <= k' <= 2 && k' != p ==> Level(t, k') == Level(s, k'))
              && t.arrivals == s.arrivals && t.timer == s.timer
              && t.metrics == s.metrics && t.released == s.released
              && t.jobs == s.jobs[id := t.jobs[id]]
              && SameWork(j, t.jobs[id])
              && t.jobs[id].priority == p
              && t.jobs[id].timeInCurrentQuantum == 0
              && t.jobs[id].timeAtCurrentLevel == 0
              && t.jobs[id].lastReadyQueueEntryTime == s.timer
              && t.jobs[id].lastEnqueuedTime == s.timer
  {
    var id := s.running.value;
    if (id, s.timer) in stuck then Abort(id)
    else
      var t := WithLevel(s, p, EnqueueTail(Level(s, p), id));
      var r := t.(running := None, jobs := s.jobs[id := Requeued(s.jobs[id], p, s.timer)]);
      PlacedSwap(s, r, p);
      WfKept(s, r);
      Next(r)
  }

  /** The quantum has run out for the running job: level 0 after t0 ticks of
      its quantum, level 1 after t1 ticks at the level, level 2 after t2
      ticks of its quantum. A zero t0 or t1 never expires. */
  predicate Expired(cfg: Config, j: Job)
  {
    || (j.priority == 0 && cfg.t0 > 0 && j.timeInCurrentQuantum >= cfg.t0)
    || (j.priority == 1 && cfg.t1 > 0 && j.timeAtCurrentLevel >= cfg.t1)
    || (j.priority == 2 && cfg.t2 > 0 && j.timeInCurrentQuantum >= cfg.t2)
  }

  /** The time limit of level `k`. */
  function Quantum(cfg: Config, k: int): int
  {
    if k == 0 then cfg.t0 else if k == 1 then cfg.t1 else cfg.t2
  }

  /** The time a job has used against its level's limit: at level 1 the
      time at the level, elsewhere the time in the current quantum. */
  function Used(j: Job): int
  {
    if j.priority == 1 then j.timeAtCurrentLevel else j.timeInCurrentQuantum
  }

  /** Expiry, level by level: a job at one of the three levels has run out
      exactly when its level's limit is positive and it has used that much. */
  lemma ExpiredIffUsedUp(cfg: Config, j: Job)
    requires 0 <= j.priority <= 2
    ensures Expired(cfg, j) <==> Quantum(cfg, j.priority) > 0 && Used(j) >= Quantum(cfg, j.priority)
  {
  }

  /** A job just put in a queue has used nothing, so it is not expired. */
  lemma RequeuedNotExpired(cfg: Config, j: Job, p: int, timer: int)
    ensures !Expired(cfg, Requeued(j, p, timer))
  {
  }

  /** Quantum expiry (mlq.c:313-331): level 0 demotes to level 1, level 1
      demotes to level 2, level 2 goes round-robin to its own tail; a job
      whose quantum has not run out keeps the CPU. */
  function Expire(cfg: Config, stuck: Failures, s: State): (r: Outcome)
    requires Wf(s) && s.running.Some?
    ensures !r.Halt?
    ensures r.Next? ==> Wf(r.state) && Placed(r.state) == Placed(s) && r.state.jobs.Keys == s.jobs.Keys
    ensures r.Next? ==> r.state.timer == s.timer && r.state.released == s.released
    ensures r.Next? ==> r.state.metrics == s.metrics
    ensures r.Abort? ==> r.job == s.running.value && (r.job, s.timer) in stuck
    ensures !Expired(cfg, s.jobs[s.running.value]) <==> r == Next(s)
    ensures var j := s.jobs[s.running.value];
            Expired(cfg, j) ==> r == DemoteToLevel(s, stuck, if j.priority == 0 then 1 else 2)
  {
    var j := s.jobs[s.running.value];
    if j.priority == 0 && cfg.t0 > 0 && j.timeInCurrentQuantum >= cfg.t0 then
      DemoteToLevel(s, stuck, 1)
    else if j.priority == 1 && cfg.t1 > 0 && j.timeAtCurrentLevel >= cfg.t1 then
      DemoteToLevel(s, stuck, 2)
    else if j.priority == 2 && cfg.t2 > 0 && j.timeInCurrentQuantum >= cfg.t2 then
      DemoteToLevel(s, stuck, 2)
    else
      Next(s)
  }

  /** `b` is `a` with at most one record appended. */
  predicate GrowsByAtMostOne(a: seq<Job>, b: seq<Job>)
  {
    b == a || (|b| == |a| + 1 && b[..|a|] == a)
  }

  /** After the running job consumed its tick (mlq.c:308-331): a job with no
      CPU time left completes, and only a job that did not complete is
      checked for quantum expiry. */
  function Settle(cfg: Config, stuck: Failures, s: State): (r: Outcome)
    requires Wf(s) && s.running.Some?
    ensures !r.Halt?
    ensures r.Next? ==> Wf(r.state) && r.state.timer == s.timer && r.state.jobs.Keys <= s.jobs.Keys
    ensures r.Next? ==> GrowsByAtMostOne(s.released, r.state.released)
    ensures r.Next? ==> r.state.metrics.totalJobs == s.metrics.totalJobs
    ensures r.Abort? ==> r.job == s.running.value && (r.job, s.timer) in stuck
    ensures s.jobs[s.running.value].remainingCpuTime <= 0 ==> r == Next(Complete(s))
    ensures s.jobs[s.running.value].remainingCpuTime > 0 ==> r == Expire(cfg, stuck, s)
  {
    if s.jobs[s.running.value].remainingCpuTime <= 0 then
      var c := Complete(s);
      assert c.released[..|s.released|] == s.released;
      Next(c)
    else Expire(cfg, stuck, s)
  }

  // ---------------------------------------------------------------------
  // One iteration of the main loop

  /** The part of an iteration before the CPU is looked at (mlq.c:239-270):
      admission, then aging. Jobs only change place. */
  function Prepare(cfg: Config, s: State): (r: State)
    requires Wf(s)
    ensures Wf(r) && Placed(r) == Placed(s) && r.jobs.Keys == s.jobs.Keys
    ensures r.running == s.running && r.timer == s.timer
    ensures r.metrics == s.metrics && r.released == s.released
    ensures SameArena(s.jobs, r.jobs)
    // the arrival queue loses exactly its due prefix
    ensures s.arrivals == DuePrefix(s.jobs, s.arrivals, s.timer) + r.arrivals && !Due(r)
  {
    AdmitKeepsPlaces(s);
    AdmitTakesDuePrefix(s);
    SameArenaTrans(s.jobs, Admit(s).jobs, Age(Admit(s), cfg.w).jobs);
    NotDueKept(Admit(s), Age(Admit(s), cfg.w));
    Age(Admit(s), cfg.w)
  }

  /** The part of an iteration after dispatch (mlq.c:290-331): stop, idle
      for a tick, or run the job for a tick and settle it. */
  function Proceed(cfg: Config, stuck: Failures, c: State): (r: Outcome)
    requires Wf(c)
    ensures !r.Abort? ==> Wf(r.state)
    ensures r.Halt? <==> c.running.None? && !Active(c)
    ensures r.Halt? ==> r.state == c
    ensures r.Next? ==> r.state.timer == c.timer + 1
    ensures r.Next? ==> r.state.jobs.Keys <= c.jobs.Keys && GrowsByAtMostOne(c.released, r.state.released)
    ensures !r.Abort? ==> r.state.metrics.totalJobs == c.metrics.totalJobs
    // only the running job's suspension, after its tick, can fail
    ensures r.Abort? ==> c.running == Some(r.job) && (r.job, c.timer + 1) in stuck
  {
    if c.running.None? then
      if c.arrivals == [] && c.level0 == [] && c.level1 == [] && c.level2 == [] then Halt(c)
      else Next(Advance(c))
    else
      Settle(cfg, stuck, Consume(c))
  }

  /** One iteration of the loop body (mlq.c:239-332). The loop is left only
      with an idle CPU and four empty queues; every iteration that goes on
      advances the clock by exactly one tick; the arena only loses records,
      and at most one per tick, whose record is released. */
  function Tick(cfg: Config, stuck: Failures, s: State): (r: Outcome)
    requires Wf(s)
    ensures !r.Abort? ==> Wf(r.state)
    ensures r.Halt? ==> !Active(r.state) && r.state.timer == s.timer
    ensures r.Next? ==> r.state.timer == s.timer + 1
    ensures !r.Abort? ==> r.state.jobs.Keys <= s.jobs.Keys
    ensures !r.Abort? ==> GrowsByAtMostOne(s.released, r.state.released)
    // no iteration changes the number of jobs read at start-up
    ensures !r.Abort? ==> r.state.metrics.totalJobs == s.metrics.totalJobs
  {
    var p := Preempt(Prepare(cfg, s), stuck);
    if p.Abort? then Abort(p.job)
    else Proceed(cfg, stuck, Dispatch(p.state))
  }

  /** The result of running the main loop. */
  datatype RunResult = Finished(state: State) | Aborted(job: JobId) | OutOfFuel(state: State)

  /** The main loop (mlq.c:238-333), for at most `fuel` iterations. */
  function Run(cfg: Config, stuck: Failures, s: State, fuel: nat): (r: RunResult)
    requires Wf(s)
    ensures r.Finished? ==> !Active(r.state) && r.state.timer >= s.timer
    ensures !r.Aborted? ==> Wf(r.state)
    decreases fuel
  {
    if !Active(s) then Finished(s)
    else if fuel == 0 then OutOfFuel(s)
    else
      match Tick(cfg, stuck, s)
      case Halt(t) => Finished(t)
      case Abort(id) => Aborted(id)
      case Next(t) => Run(cfg, stuck, t, fuel - 1)
  }

  /** One turn of the loop: an iteration that goes on leaves the rest of
      the loop to run, one that stops finishes the loop, and one that
      aborts aborts it. */
  lemma RunUnfolds(cfg: Config, stuck: Failures, s: State, rest: nat)
    requires Wf(s) && Active(s)
    ensures var o := Tick(cfg, stuck, s);
            && (o.Next? ==> Run(cfg, stuck, s, rest + 1) == Run(cfg, stuck, o.state, rest))
            && (o.Halt? ==> Run(cfg, stuck, s, rest + 1) == Finished(o.state))
            && (o.Abort? ==> Run(cfg, stuck, s, rest + 1) == Aborted(o.job))
  {
  }

  /** With nothing left to run the loop is already finished. */
  lemma RunIdle(cfg: Config, stuck: Failures, s: State, fuel: nat)
    requires Wf(s) && !Active(s)
    ensures Run(cfg, stuck, s, fuel) == Finished(s)
  {
  }

  /** An iteration aborts only on a failed suspension of the job it names:
      at this tick when preemption aborts it, at the next when quantum
      expiry does. */
  lemma TickAbortCause(cfg: Config, stuck: Failures, s: State) returns (preempting: bool)
    requires Wf(s)
    ensures preempting <==> Preempt(Prepare(cfg, s), stuck).Abort?
    ensures var r := Tick(cfg, stuck, s);
            r.Abort? && preempting ==> (r.job, s.timer) in stuck
    ensures var r := Tick(cfg, stuck, s);
            r.Abort? && !preempting ==> (r.job, s.timer + 1) in stuck
  {
    preempting := Preempt(Prepare(cfg, s), stuck).Abort?;
    if !preempting {
      ExpiryAbortCause(cfg, stuck, s);
    }
  }

  /** The abort of an iteration that preemption did not abort comes from
      the suspension after the job's tick. */
  lemma ExpiryAbortCause(cfg: Config, stuck: Failures, s: State)
    requires Wf(s) && !Preempt(Prepare(cfg, s), stuck).Abort?
    ensures var r := Tick(cfg, stuck, s);
            r.Abort? ==> (r.job, s.timer + 1) in stuck
  {
    var p := Preempt(Prepare(cfg, s), stuck);
    TickProceeds(cfg, stuck, s);
    ProceedAbortCause(cfg, stuck, s, p, Dispatch(p.state), Proceed(cfg, stuck, Dispatch(p.state)));
  }

  /** An iteration that is not aborted by preemption is the dispatch
      followed by `Proceed`. */
  lemma TickProceeds(cfg: Config, stuck: Failures, s: State)
    requires Wf(s) && Preempt(Prepare(cfg, s), stuck).Next?
    ensures Tick(cfg, stuck, s) == Proceed(cfg, stuck, Dispatch(Preempt(Prepare(cfg, s), stuck).state))
  {
  }

  /** `Proceed` after preemption and dispatch runs from the iteration's tick. */
  lemma ProceedAbortCause(cfg: Config, stuck: Failures, s: State, p: Outcome, c: State, q: Outcome)
    requires Wf(s) && p == Preempt(Prepare(cfg, s), stuck) && p.Next? && c == Dispatch(p.state)
    requires q == Proceed(cfg, stuck, c)
    ensures q.Abort? ==> (q.job, s.timer + 1) in stuck
  {
    ProceedAborts(cfg, stuck, c, q);
    var next := c.timer + 1;
    assert next == s.timer + 1;
  }

  /** `Proceed`'s abort cause, for a result named by the caller. */
  lemma ProceedAborts(cfg: Config, stuck: Failures, c: State, q: Outcome)
    requires Wf(c) && q == Proceed(cfg, stuck, c)
    ensures q.Abort? ==> (q.job, c.timer + 1) in stuck
  {
  }

  /** With no failing suspension the loop never aborts. */
  lemma {:induction false} RunWithoutFailures(cfg: Config, s: State, fuel: nat)
    requires Wf(s)
    ensures !Run(cfg, {}, s, fuel).Aborted?
    decreases fuel
  {
    if Active(s) && fuel > 0 {
      var rest := fuel - 1;
      RunUnfolds(cfg, {}, s, rest);
      var _ := TickAbortCause(cfg, {}, s);
      var o := Tick(cfg, {}, s);
      if o.Next? {
        RunWithoutFailures(cfg, o.state, rest);
      }
    }
  }
}
