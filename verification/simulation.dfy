/** The whole simulation: the job file is loaded and the main loop run to
    its end (mlq.c:198-333).
 */
module MlqSimulation {
  import opened Queues
  import opened Pcb
  import opened Mlq
  import opened MlqInvariants
  import opened MlqTermination
  import opened MlqIdentity
  import opened Arrivals

  /** The ids 1 to n. */
  function Upto(n: nat): (r: set<JobId>)
    ensures forall id :: id in r <==> 1 <= id <= n
  {
    if n == 0 then {} else Upto(n - 1) + {n}
  }

  /** The ids given to the jobs read: 1 to the number of reads that
      converted three integers (mlq.c:209-226). */
  function ReadIds(input: seq<Option<Entry>>): set<JobId>
  {
    Upto(|Parsed(input)|)
  }

  /** At start-up the arena agrees with itself as the book: every record is
      stored under its own id and nothing is released yet. */
  lemma LoadIdentity(input: seq<Option<Entry>>)
    requires Load(input).Some?
    ensures Identity(Load(input).value, Load(input).value.jobs)
    ensures Load(input).value.jobs.Keys == ReadIds(input)
  {
    var s := Load(input).value;
    assert s.released == [];
    assert Ids(s.released) == {};
  }

  /** From start-up to the end of the loop: a run that finishes has
      completed as many jobs as were read, and with no failing suspension
      and more turns than the termination measure the run does finish. */
  lemma LoadedRunCompletesAll(cfg: Config, stuck: Failures, input: seq<Option<Entry>>, s: State, fuel: nat)
    requires Load(input).Some? && s == Load(input).value
    ensures Inv(s)
    ensures var r := Run(cfg, stuck, s, fuel);
            r.Finished? ==> |r.state.released| == r.state.metrics.completedJobs == |Parsed(input)|
    ensures stuck == {} && fuel > Measure(s) ==> Run(cfg, stuck, s, fuel).Finished?
  {
    LoadEstablishesInv(input);
    RunCompletesAll(cfg, stuck, s, fuel);
    if stuck == {} && fuel > Measure(s) {
      RunTerminates(cfg, stuck, s, fuel);
      RunWithoutFailures(cfg, s, fuel);
    }
  }

  /** A run that finishes has released exactly the jobs read, each once,
      with the arrival time, service time and clamped priority of its
      read. */
  lemma LoadedRunReleasesReads(cfg: Config, stuck: Failures, input: seq<Option<Entry>>, s: State, fuel: nat)
    requires Load(input).Some? && s == Load(input).value
    ensures Inv(s)
    ensures var r := Run(cfg, stuck, s, fuel);
            r.Finished? ==> ReleasedAsRead(r.state.released, Parsed(input))
  {
    LoadEstablishesInv(input);
    LoadIdentity(input);
    var ls := Parsed(input);
    assert LoadedFrom(s.jobs, ls);
    RunReleasesReads(cfg, stuck, s, fuel, ls);
  }

  /** A record carries the arrival time, service time and clamped priority
      of the read it came from. */
  predicate ReadAs(j: Job, e: Entry)
  {
    j.arrivalTime == e.arrival && j.serviceTime == e.service
    && j.initialPriority == ClampPriority(e.priority)
  }

  /** The released records are the entries read, each once: their ids are
      1 to |ls|, pairwise distinct, and the record with id `n` carries the
      `n`-th entry. */
  predicate ReleasedAsRead(released: seq<Job>, ls: seq<Entry>)
  {
    && Ids(released) == Upto(|ls|)
    && (forall i, j :: 0 <= i < j < |released| ==> released[i].id != released[j].id)
    && (forall i :: 0 <= i < |released| ==>
          1 <= released[i].id <= |ls| && ReadAs(released[i], ls[released[i].id - 1]))
  }

  /** The arena holds record `n` for the `n`-th entry, and nothing else. */
  ghost predicate LoadedFrom(book: map<JobId, Job>, ls: seq<Entry>)
  {
    && (forall id :: id in book <==> 1 <= id <= |ls|)
    && (forall id :: id in book ==> book[id] == Record(id, ls[id - 1]))
  }

  /** A run from an arena loaded from `ls` that finishes has released the
      entries of `ls`, each once. */
  lemma RunReleasesReads(cfg: Config, stuck: Failures, s: State, fuel: nat, ls: seq<Entry>)
    requires Inv(s) && Identity(s, s.jobs) && LoadedFrom(s.jobs, ls)
    ensures var r := Run(cfg, stuck, s, fuel);
            r.Finished? ==> ReleasedAsRead(r.state.released, ls)
  {
    var book := s.jobs;
    RunReleasesEveryJob(cfg, stuck, s, fuel, book);
    var r := Run(cfg, stuck, s, fuel);
    if r.Finished? {
      OnceAsRead(book, ls, r.state.released);
    }
  }

  /** Records released once from an arena loaded from `ls` carry their
      entries. */
  lemma OnceAsRead(book: map<JobId, Job>, ls: seq<Entry>, released: seq<Job>)
    requires LoadedFrom(book, ls) && ReleasedOnce(released, book)
    ensures ReleasedAsRead(released, ls)
  {
    assert book.Keys == Upto(|ls|);
    forall i | 0 <= i < |released|
      ensures 1 <= released[i].id <= |ls| && ReadAs(released[i], ls[released[i].id - 1])
    {
      OneAsRead(book, ls, released[i]);
    }
  }

  /** One record that agrees with the arena carries its entry. */
  lemma OneAsRead(book: map<JobId, Job>, ls: seq<Entry>, j: Job)
    requires LoadedFrom(book, ls)
    requires j.id in book && SameJob(book[j.id], j)
    ensures 1 <= j.id <= |ls| && ReadAs(j, ls[j.id - 1])
  {
    assert book[j.id] == Record(j.id, ls[j.id - 1]);
  }
}
