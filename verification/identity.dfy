/** Which jobs the scheduler runs: no phase of a tick invents, duplicates or
    alters a job. Every record keeps the id it is stored under and the
    arrival time, service time and initial priority it was read with, and a
    completed job's record is released once, under its own id.

    The reference is the `book`, the arena as it was at start-up. A state
    agrees with the book when its live records and its released records
    together are the book's jobs, each exactly once, with the book's
    identity fields.
 */
module MlqIdentity {
  import opened Queues
  import opened Pcb
  import opened Mlq
  import opened MlqInvariants

  /** The fields a job is read with and never loses: its id, arrival time,
      service time and initial priority. */
  predicate SameJob(a: Job, b: Job)
  {
    a.id == b.id && a.arrivalTime == b.arrivalTime && a.serviceTime == b.serviceTime
    && a.initialPriority == b.initialPriority
  }

  /** The ids of the released records. */
  function Ids(rs: seq<Job>): set<JobId>
  {
    set i | 0 <= i < |rs| :: rs[i].id
  }

  /** The state accounts for the book's jobs: each live record is stored
      under its own id, each released record has an id no other released
      or live record has, and live and released ids together are the
      book's. Every record keeps the book's identity fields. */
  predicate Identity(s: State, book: map<JobId, Job>)
  {
    && (forall x :: x in s.jobs ==> x in book && s.jobs[x].id == x && SameJob(book[x], s.jobs[x]))
    && (forall i :: 0 <= i < |s.released| ==>
          s.released[i].id in book && s.released[i].id !in s.jobs
          && SameJob(book[s.released[i].id], s.released[i]))
    && (forall i, j :: 0 <= i < j < |s.released| ==> s.released[i].id != s.released[j].id)
    && book.Keys == s.jobs.Keys + Ids(s.released)
  }

  /** Appending a record adds its id. */
  lemma IdsSnoc(rs: seq<Job>, r: Job)
    ensures Ids(rs + [r]) == Ids(rs) + {r.id}
  {
    var a := rs + [r];
    forall x | x in Ids(a) ensures x in Ids(rs) + {r.id} {
      var i :| 0 <= i < |a| && a[i].id == x;
      if i < |rs| {
        assert rs[i] == a[i];
      }
    }
    forall x | x in Ids(rs) + {r.id} ensures x in Ids(a) {
      if x == r.id {
        assert a[|rs|].id == x;
      } else {
        var i :| 0 <= i < |rs| && rs[i].id == x;
        assert a[i] == rs[i];
      }
    }
  }

  // ---------------------------------------------------------------------
  // Phases that only update records in place

  /** A step that keeps the live ids and the released records, and keeps
      every live record's identity fields, keeps the agreement. */
  lemma IdentityFrame(s: State, t: State, book: map<JobId, Job>)
    requires Identity(s, book)
    requires t.jobs.Keys == s.jobs.Keys && t.released == s.released
    requires forall x :: x in t.jobs ==> SameJob(s.jobs[x], t.jobs[x])
    ensures Identity(t, book)
  {
  }

  /** A step that keeps the arena up to `SameWork` keeps the agreement. */
  lemma IdentitySameArena(s: State, t: State, book: map<JobId, Job>)
    requires Identity(s, book)
    requires SameArena(s.jobs, t.jobs) && t.released == s.released
    ensures Identity(t, book)
  {
    IdentityFrame(s, t, book);
  }

  /** Admission and aging (mlq.c:239-270). */
  lemma PrepareIdentity(cfg: Config, s: State, book: map<JobId, Job>)
    requires Wf(s) && Identity(s, book)
    ensures Identity(Prepare(cfg, s), book)
  {
    IdentitySameArena(s, Prepare(cfg, s), book);
  }

  /** Preemption (mlq.c:272-278). */
  lemma PreemptIdentity(s: State, stuck: Failures, book: map<JobId, Job>)
    requires Wf(s) && Identity(s, book)
    ensures Preempt(s, stuck).Next? ==> Identity(Preempt(s, stuck).state, book)
  {
    var p := Preempt(s, stuck);
    if p.Next? {
      IdentitySameArena(s, p.state, book);
    }
  }

  /** Dispatch (mlq.c:280-288). */
  lemma DispatchIdentity(s: State, book: map<JobId, Job>)
    requires Wf(s) && Identity(s, book)
    ensures Identity(Dispatch(s), book)
  {
    var r := Dispatch(s);
    if s.running.None? {
      DispatchRecord(s);
      if r.running.Some? {
        IdentityFrame(s, r, book);
      }
    }
  }

  /** Running the job for a tick (mlq.c:299-306). */
  lemma ConsumeIdentity(s: State, book: map<JobId, Job>)
    requires Wf(s) && s.running.Some? && Identity(s, book)
    ensures Identity(Consume(s), book)
  {
    IdentityFrame(s, Consume(s), book);
  }

  /** Demotion and round-robin requeueing (mlq.c:102-116). */
  lemma DemoteIdentity(s: State, stuck: Failures, p: int, book: map<JobId, Job>)
    requires Wf(s) && s.running.Some? && 0 <= p <= 2 && Identity(s, book)
    ensures DemoteToLevel(s, stuck, p).Next? ==> Identity(DemoteToLevel(s, stuck, p).state, book)
  {
    var r := DemoteToLevel(s, stuck, p);
    if r.Next? {
      IdentityFrame(s, r.state, book);
    }
  }

  // ---------------------------------------------------------------------
  // Completion

  /** Completion (mlq.c:90-100) moves the running job's record from the
      arena to the released records, under the id it was stored under. */
  lemma CompleteIdentity(s: State, book: map<JobId, Job>)
    requires Wf(s) && s.running.Some? && Identity(s, book)
    ensures Identity(Complete(s), book)
  {
    var id := s.running.value;
    var r := Complete(s);
    var done := s.jobs[id].(completionTime := s.timer);
    assert r.released == s.released + [done];
    assert done.id == id;
    IdsSnoc(s.released, done);
    forall i | 0 <= i < |r.released|
      ensures r.released[i].id in book && r.released[i].id !in r.jobs
      ensures SameJob(book[r.released[i].id], r.released[i])
    {
      if i < |s.released| {
        assert r.released[i] == s.released[i];
      }
    }
    forall i, j | 0 <= i < j < |r.released| ensures r.released[i].id != r.released[j].id {
      assert r.released[i] == s.released[i];
      if j < |s.released| {
        assert r.released[j] == s.released[j];
      }
    }
  }

  // ---------------------------------------------------------------------
  // The loop

  /** Completion or expiry (mlq.c:308-331). */
  lemma SettleIdentity(cfg: Config, stuck: Failures, s: State, book: map<JobId, Job>)
    requires Wf(s) && s.running.Some? && Identity(s, book)
    ensures Settle(cfg, stuck, s).Next? ==> Identity(Settle(cfg, stuck, s).state, book)
  {
    var j := s.jobs[s.running.value];
    if j.remainingCpuTime <= 0 {
      CompleteIdentity(s, book);
    } else if Expired(cfg, j) {
      DemoteIdentity(s, stuck, if j.priority == 0 then 1 else 2, book);
    }
  }

  /** The rest of a tick after dispatch (mlq.c:290-331). */
  lemma ProceedIdentity(cfg: Config, stuck: Failures, c: State, book: map<JobId, Job>)
    requires Wf(c) && Identity(c, book)
    ensures !Proceed(cfg, stuck, c).Abort? ==> Identity(Proceed(cfg, stuck, c).state, book)
  {
    if c.running.Some? {
      ConsumeIdentity(c, book);
      SettleIdentity(cfg, stuck, Consume(c), book);
      assert Proceed(cfg, stuck, c) == Settle(cfg, stuck, Consume(c));
    }
  }

  /** One iteration of the loop (mlq.c:238-333) keeps the agreement. */
  lemma TickIdentity(cfg: Config, stuck: Failures, s: State, book: map<JobId, Job>)
    requires Wf(s) && Identity(s, book)
    ensures !Tick(cfg, stuck, s).Abort? ==> Identity(Tick(cfg, stuck, s).state, book)
  {
    var a := Prepare(cfg, s);
    PrepareIdentity(cfg, s, book);
    var p := Preempt(a, stuck);
    PreemptIdentity(a, stuck, book);
    if p.Next? {
      DispatchIdentity(p.state, book);
      ProceedIdentity(cfg, stuck, Dispatch(p.state), book);
      assert Tick(cfg, stuck, s) == Proceed(cfg, stuck, Dispatch(p.state));
    }
  }

  /** The whole loop keeps the agreement, unless it aborts. */
  lemma {:induction false} RunIdentity(cfg: Config, stuck: Failures, s: State, fuel: nat, book: map<JobId, Job>)
    requires Wf(s) && Identity(s, book)
    ensures !Run(cfg, stuck, s, fuel).Aborted? ==> Identity(Run(cfg, stuck, s, fuel).state, book)
    decreases fuel
  {
    if !Active(s) {
      RunIdle(cfg, stuck, s, fuel);
    } else if fuel > 0 {
      var rest := fuel - 1;
      RunUnfolds(cfg, stuck, s, rest);
      TickIdentity(cfg, stuck, s, book);
      var o := Tick(cfg, stuck, s);
      if o.Next? {
        RunIdentity(cfg, stuck, o.state, rest, book);
      }
    }
  }

  /** Every book job is released exactly once, with its identity fields. */
  predicate ReleasedOnce(released: seq<Job>, book: map<JobId, Job>)
  {
    && Ids(released) == book.Keys
    && (forall i, j :: 0 <= i < j < |released| ==> released[i].id != released[j].id)
    && (forall i :: 0 <= i < |released| ==>
          released[i].id in book && SameJob(book[released[i].id], released[i]))
  }

  /** Once the arena is empty, the released records are the book's jobs. */
  lemma EmptyArenaReleasedOnce(s: State, book: map<JobId, Job>)
    requires Identity(s, book) && s.jobs.Keys == {}
    ensures ReleasedOnce(s.released, book)
  {
  }

  /** A loop that finishes has released every job of the book exactly once:
      the released ids are the book's ids, no two released records share
      an id, and each record keeps the book's identity fields. */
  lemma RunReleasesEveryJob(cfg: Config, stuck: Failures, s: State, fuel: nat, book: map<JobId, Job>)
    requires Inv(s) && Identity(s, book)
    ensures Run(cfg, stuck, s, fuel).Finished? ==> ReleasedOnce(Run(cfg, stuck, s, fuel).state.released, book)
  {
    RunIdentity(cfg, stuck, s, fuel, book);
    RunKeepsInv(cfg, stuck, s, fuel);
    var r := Run(cfg, stuck, s, fuel);
    if r.Finished? {
      var t := r.state;
      DoneMeansAllCompleted(t);
      EmptyArenaReleasedOnce(t, book);
    }
  }
}
