/** Start-up: the job file becomes the arrival queue.

    The job file is read by successive `fscanf("%d, %d, %d")` calls until
    end of file. Each call that converts all three integers (arrival time,
    service time, priority) becomes a job with the next id, counting from 1;
    a call that converts fewer is dropped without using an id. The model
    takes the file as the sequence of these calls' outcomes, so it covers
    the files on which the read loop ends: a call that fails without
    consuming input (a non-numeric character) would be repeated forever.
    The priority is clamped to the three levels, and the job is inserted
    into the arrival queue, which is kept in ascending arrival-time order.
    A file with no job is refused.

    The arrival queue's insertion primitive (`enqPcb`) is modelled by its
    contract: it inserts a job after every job that arrives no later, so
    equal arrival times keep file order.
 */
module Arrivals {
  import opened Queues
  import opened Pcb
  import opened Mlq
  import opened MlqInvariants

  /** One successful read of the job file: arrival time, service time, priority. */
  datatype Entry = Entry(arrival: int, service: int, priority: int)

  /** `q` is in ascending arrival-time order. */
  predicate ByArrival(jobs: map<JobId, Job>, q: seq<JobId>)
    requires forall x :: x in q ==> x in jobs
  {
    forall i, j :: 0 <= i < j < |q| ==> jobs[q[i]].arrivalTime <= jobs[q[j]].arrivalTime
  }

  // ---------------------------------------------------------------------
  // The sorted insert

  /** Inserts `x` into `q` after every job that arrives no later than it. */
  function InsertByArrival(jobs: map<JobId, Job>, q: seq<JobId>, x: JobId): (r: seq<JobId>)
    requires x in jobs && forall y :: y in q ==> y in jobs
    ensures multiset(r) == multiset(q) + multiset{x}
    ensures forall y :: y in r <==> y == x || y in q
    ensures |r| == |q| + 1
    decreases |q|
  {
    if q == [] || jobs[x].arrivalTime < jobs[q[0]].arrivalTime then [x] + q
    else
      assert q == [q[0]] + q[1..];
      [q[0]] + InsertByArrival(jobs, q[1..], x)
  }

  /** The number of leading jobs of `q` that arrive no later than `t`. */
  function NoLater(jobs: map<JobId, Job>, q: seq<JobId>, t: int): (n: nat)
    requires forall y :: y in q ==> y in jobs
    ensures n <= |q|
    ensures forall i :: 0 <= i < n ==> jobs[q[i]].arrivalTime <= t
    ensures n < |q| ==> jobs[q[n]].arrivalTime > t
    decreases |q|
  {
    if q == [] || t < jobs[q[0]].arrivalTime then 0
    else
      var m := NoLater(jobs, q[1..], t);
      assert forall i :: 1 <= i < m + 1 ==> q[i] == q[1..][i - 1];
      m + 1
  }

  /** The insert splices `x` in just after the jobs that arrive no later:
      everything before it arrives no later, the job after it arrives
      strictly later, and the order of `q` is kept. */
  lemma {:induction false} InsertSplices(jobs: map<JobId, Job>, q: seq<JobId>, x: JobId)
    requires x in jobs && forall y :: y in q ==> y in jobs
    ensures var n := NoLater(jobs, q, jobs[x].arrivalTime);
            InsertByArrival(jobs, q, x) == q[..n] + [x] + q[n..]
    decreases |q|
  {
    var t := jobs[x].arrivalTime;
    if q == [] || t < jobs[q[0]].arrivalTime {
      assert NoLater(jobs, q, t) == 0;
    } else {
      var m := NoLater(jobs, q[1..], t);
      InsertSplices(jobs, q[1..], x);
      assert NoLater(jobs, q, t) == m + 1;
      SpliceCons(q, m, x);
    }
  }

  /** Splicing behind the head of a queue is splicing into its tail. */
  lemma SpliceCons<T>(q: seq<T>, m: nat, x: T)
    requires m + 1 <= |q|
    ensures q[..m + 1] + [x] + q[m + 1..] == [q[0]] + (q[1..][..m] + [x] + q[1..][m..])
  {
    assert q[..m + 1] == [q[0]] + q[1..][..m];
    assert q[m + 1..] == q[1..][m..];
  }

  /** Every job of `q` arrives no earlier than `t`. */
  predicate NoEarlier(jobs: map<JobId, Job>, q: seq<JobId>, t: int)
    requires forall y :: y in q ==> y in jobs
  {
    forall y :: y in q ==> t <= jobs[y].arrivalTime
  }

  /** The insert keeps the arrival queue sorted. */
  lemma {:induction false} InsertSorted(jobs: map<JobId, Job>, q: seq<JobId>, x: JobId)
    requires x in jobs && forall y :: y in q ==> y in jobs
    requires ByArrival(jobs, q)
    ensures ByArrival(jobs, InsertByArrival(jobs, q, x))
    decreases |q|
  {
    var r := InsertByArrival(jobs, q, x);
    if q == [] || jobs[x].arrivalTime < jobs[q[0]].arrivalTime {
      SortedCons(jobs, x, q);
    } else {
      var rest := InsertByArrival(jobs, q[1..], x);
      assert ByArrival(jobs, q[1..]) by {
        forall i, j | 0 <= i < j < |q[1..]|
          ensures jobs[q[1..][i]].arrivalTime <= jobs[q[1..][j]].arrivalTime
        {
          assert q[1..][i] == q[i + 1] && q[1..][j] == q[j + 1];
        }
      }
      InsertSorted(jobs, q[1..], x);
      forall y | y in rest ensures jobs[q[0]].arrivalTime <= jobs[y].arrivalTime {
        assert y in multiset(rest);
        if y != x {
          assert y in multiset(q[1..]);
          var j :| 0 <= j < |q[1..]| && q[1..][j] == y;
          assert q[j + 1] == y;
        }
      }
      SortedCons(jobs, q[0], rest);
    }
  }

  /** A job that arrives no later than every job of a sorted queue can go
      in front of it. */
  lemma SortedCons(jobs: map<JobId, Job>, x: JobId, q: seq<JobId>)
    requires x in jobs && forall y :: y in q ==> y in jobs
    requires ByArrival(jobs, q) && NoEarlier(jobs, q, jobs[x].arrivalTime)
    ensures ByArrival(jobs, [x] + q)
  {
    var r := [x] + q;
    forall i, j | 0 <= i < j < |r| ensures jobs[r[i]].arrivalTime <= jobs[r[j]].arrivalTime {
      assert r[j] == q[j - 1];
      if i > 0 {
        assert r[i] == q[i - 1];
      }
    }
  }

  // ---------------------------------------------------------------------
  // Reading the job file

  /** The entries of the reads that converted three integers, in file
      order; `None` is a read that converted fewer. */
  function Parsed(input: seq<Option<Entry>>): (r: seq<Entry>)
    ensures |r| <= |input|
    ensures forall l :: l in r <==> Some(l) in input
    // a single read yields its record, or nothing when it failed
    ensures |input| == 1 ==> r == (if input[0].Some? then [input[0].value] else [])
  {
    if input == [] then []
    else
      var rest := Parsed(input[..|input| - 1]);
      assert input == input[..|input| - 1] + [input[|input| - 1]];
      match input[|input| - 1]
      case None => rest
      case Some(l) => rest + [l]
  }

  /** Reading is per call: the records of two stretches of reads are the
      records of the first followed by those of the second. */
  lemma {:induction false} ParsedAppend(a: seq<Option<Entry>>, b: seq<Option<Entry>>)
    ensures Parsed(a + b) == Parsed(a) + Parsed(b)
    decreases |b|
  {
    if b != [] {
      var b' := b[..|b| - 1];
      assert a + b == (a + b') + [b[|b| - 1]];
      assert (a + b)[..|a + b| - 1] == a + b';
      ParsedAppend(a, b');
    } else {
      assert a + b == a;
    }
  }

  /** The record built for read `l`, given job id `id`. */
  function Record(id: JobId, l: Entry): Job
  {
    NewJob(id, l.arrival, l.service, l.priority)
  }

  /** The records of `ls`, with ids 1 to |ls| in file order. */
  function Records(ls: seq<Entry>): (jobs: map<JobId, Job>)
    ensures forall id :: id in jobs <==> 1 <= id <= |ls|
    ensures forall id :: id in jobs ==> jobs[id] == Record(id, ls[id - 1])
  {
    if ls == [] then map[]
    else
      var n := |ls|;
      Records(ls[..n - 1])[n := Record(n, ls[n - 1])]
  }

  /** The arrival queue after jobs 1 to n have been inserted in turn. */
  function Enqueued(jobs: map<JobId, Job>, n: nat): (q: seq<JobId>)
    requires forall id :: 1 <= id <= n ==> id in jobs
    ensures |q| == n
    ensures forall y :: y in q <==> 1 <= y <= n
    ensures forall y :: multiset(q)[y] == if 1 <= y <= n then 1 else 0
  {
    if n == 0 then [] else InsertByArrival(jobs, Enqueued(jobs, n - 1), n)
  }

  /** Inserting the jobs one by one leaves the arrival queue sorted. */
  lemma {:induction false} EnqueuedSorted(jobs: map<JobId, Job>, n: nat)
    requires forall id :: 1 <= id <= n ==> id in jobs
    ensures ByArrival(jobs, Enqueued(jobs, n))
  {
    if n > 0 {
      EnqueuedSorted(jobs, n - 1);
      InsertSorted(jobs, Enqueued(jobs, n - 1), n);
    }
  }

  /** The state the main loop starts from, or None when the job file holds
      no job: the jobs in the arrival queue, nothing ready or running, the
      clock at 0 and all metric totals 0 except the job count. */
  function Load(input: seq<Option<Entry>>): (r: Option<State>)
    ensures r.None? <==> forall i :: 0 <= i < |input| ==> input[i].None?
    ensures r.Some? ==> r.value.timer == 0 && r.value.metrics.totalJobs == |Parsed(input)|
    ensures r.Some? ==> forall id :: id in r.value.jobs <==> 1 <= id <= |Parsed(input)|
    ensures r.Some? ==> forall id :: id in r.value.jobs ==> r.value.jobs[id] == Record(id, Parsed(input)[id - 1])
    ensures r.Some? ==> multiset(r.value.arrivals) == multiset(r.value.jobs.Keys)
  {
    var ls := Parsed(input);
    if ls == [] then
      assert forall i :: 0 <= i < |input| ==> input[i].None? by {
        forall i | 0 <= i < |input| ensures input[i].None? {
          assert input[i] in input;
        }
      }
      None
    else
      assert ls[0] in ls;
      assert exists i :: 0 <= i < |input| && input[i].Some?;
      var jobs := Records(ls);
      var q := Enqueued(jobs, |ls|);
      Some(State(jobs, q, [], [], [], None, 0, Metrics(0, 0, 0, 0, |ls|), []))
  }

  /** The loaded state meets every invariant of the main loop, and its
      arrival queue is sorted. */
  lemma LoadEstablishesInv(input: seq<Option<Entry>>)
    requires Load(input).Some?
    ensures Inv(Load(input).value)
    ensures ByArrival(Load(input).value.jobs, Load(input).value.arrivals)
  {
    var s := Load(input).value;
    var ls := Parsed(input);
    EnqueuedSorted(s.jobs, |ls|);
    PlacedByLevel(s);
    assert Placed(s) == multiset(s.arrivals);
    assert |s.jobs.Keys| == |multiset(s.jobs.Keys)| == |multiset(s.arrivals)| == |ls|;
    forall x | x in s.jobs ensures 0 <= s.jobs[x].initialPriority <= 2 && 0 <= s.jobs[x].priority <= 2 {
    }
  }

  // ---------------------------------------------------------------------
  // Admission from a sorted queue

  /** From a sorted arrival queue, admission takes every job that has
      arrived: whatever it leaves arrives after the current tick. */
  lemma SortedAdmitsAllDue(s: State)
    requires ArrivalsKnown(s) && ByArrival(s.jobs, s.arrivals)
    ensures forall x :: x in Admit(s).arrivals ==> s.jobs[x].arrivalTime > s.timer
  {
    var r := Admit(s);
    var p := DuePrefix(s.jobs, s.arrivals, s.timer);
    AdmitTakesDuePrefix(s);
    if r.arrivals != [] {
      assert SameWork(s.jobs[r.arrivals[0]], r.jobs[r.arrivals[0]]);
      assert s.arrivals[|p|] == r.arrivals[0];
      forall x | x in r.arrivals ensures s.jobs[x].arrivalTime > s.timer {
        var j :| 0 <= j < |r.arrivals| && r.arrivals[j] == x;
        assert s.arrivals[|p| + j] == x;
      }
    }
  }
}
