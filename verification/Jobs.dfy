/** The job store: one record per minted job, a per-namespace bound that refuses rather than evicts,
    and the two lifecycle writes, each one critical section.  */
module Jobs {
  import opened Text
  import opened Lanes

  datatype Job = Job(
    id: string, namespace: string, entry: string, laneKey: string, createIndex: int,
    polls: nat, cancelRequested: bool, cancelAtPoll: nat)

  datatype MarkOutcome = Marked | AlreadyMarked | PositionMoved | NotFound

  datatype CreateOutcome = Created | Duplicate | Full

  type Records = map<string, map<string, Job>>

  /** The records of one namespace, none when it holds nothing. */
  function Live(jobs: Records, namespace: string): map<string, Job> {
    var ns := Effective(namespace);
    if ns in jobs then jobs[ns] else map[]
  }

  function Find(jobs: Records, namespace: string, id: string): Option<Job> {
    var live := Live(jobs, namespace);
    if id in live then Some(live[id]) else None
  }

  function Put(jobs: Records, namespace: string, id: string, job: Job): Records {
    jobs[Effective(namespace) := Live(jobs, namespace)[id := job]]
  }

  function Max(a: int, b: int): int { if a >= b then a else b }

  /** A poll that claimed index i has moved the job's position past it. */
  function Advanced(job: Job, i: int): Job {
    if i + 1 > job.polls then job.(polls := i + 1) else job
  }

  function MarkReply(job: Job, atPoll: nat): MarkOutcome {
    if job.cancelRequested then AlreadyMarked
    else if job.polls != atPoll then PositionMoved
    else Marked
  }

  /** The compare-and-set a cancel is recorded with. */
  function MarkedAt(job: Job, atPoll: nat): Job {
    if MarkReply(job, atPoll).Marked? then job.(cancelRequested := true, cancelAtPoll := atPoll) else job
  }

  function Recorded(job: Job): Job {
    job.(namespace := Effective(job.namespace), polls := 0, cancelRequested := false, cancelAtPoll := 0)
  }

  function CreateReply(jobs: Records, bound: nat, job: Job): CreateOutcome {
    var live := Live(jobs, job.namespace);
    if job.id in live then Duplicate else if bound > 0 && |live| >= bound then Full else Created
  }

  /** Every record is filed under its own namespace and identifier, and no namespace is over its
      bound. */
  ghost predicate WellFiled(jobs: Records, bound: nat) {
    forall ns | ns in jobs ::
      && Effective(ns) == ns
      && (bound > 0 ==> |jobs[ns]| <= bound)
      && forall id | id in jobs[ns] :: jobs[ns][id].namespace == ns && jobs[ns][id].id == id
  }

  lemma PutFinds(jobs: Records, namespace: string, id: string, job: Job)
    ensures forall ns, i :: (
      Find(Put(jobs, namespace, id, job), ns, i)
        == if Effective(ns) == Effective(namespace) && i == id then Some(job) else Find(jobs, ns, i))
  {
  }

  lemma OneMoreRecord(live: map<string, Job>, job: Job)
    ensures |live[job.id := job]| == |live| + if job.id in live then 0 else 1
  {
    var next := live[job.id := job];
    assert next.Keys == live.Keys + {job.id};
    assert |next| == |next.Keys| && |live| == |live.Keys|;
    if job.id in live { assert next.Keys == live.Keys; }
  }

  lemma PutKeepsFiling(jobs: Records, bound: nat, job: Job)
    requires WellFiled(jobs, bound) && Effective(job.namespace) == job.namespace
    requires job.id in Live(jobs, job.namespace) || bound == 0 || |Live(jobs, job.namespace)| < bound
    ensures WellFiled(Put(jobs, job.namespace, job.id, job), bound)
  {
    OneMoreRecord(Live(jobs, job.namespace), job);
    var after: Records := Put(jobs, job.namespace, job.id, job);
    forall ns | ns in after
      ensures Effective(ns) == ns && (bound > 0 ==> |after[ns]| <= bound)
      ensures forall id | id in after[ns] :: after[ns][id].namespace == ns && after[ns][id].id == id
    {
      if ns != job.namespace { assert ns in jobs && after[ns] == jobs[ns]; }
    }
  }

  class Registry {
    var jobs: Records
    const bound: nat

    constructor (maxJobs: int)
      ensures jobs == map[] && bound == if maxJobs <= 0 then 256 else maxJobs
      ensures WellFiled(jobs, bound)
    {
      jobs := map[];
      bound := if maxJobs <= 0 then 256 else maxJobs;
    }

    /** Records a job with a zero lifecycle. A re-minted identifier is reported as the duplicate it is
        even in a full namespace, and a refusal records nothing. */
    method Create(job: Job) returns (outcome: CreateOutcome, count: nat)
      requires WellFiled(jobs, bound)
      modifies this
      ensures WellFiled(jobs, bound)
      ensures outcome == CreateReply(old(jobs), bound, job)
      ensures outcome.Duplicate? <==> job.id in Live(old(jobs), job.namespace)
      ensures outcome.Full? <==>
        job.id !in Live(old(jobs), job.namespace) && bound > 0 && |Live(old(jobs), job.namespace)| >= bound
      ensures outcome.Created? ==>
        && jobs == Put(old(jobs), job.namespace, job.id, Recorded(job))
        && Find(jobs, job.namespace, job.id) == Some(job.(
             namespace := Effective(job.namespace), polls := 0, cancelRequested := false, cancelAtPoll := 0))
      ensures !outcome.Created? ==> jobs == old(jobs)
      ensures forall ns, id | Effective(ns) != Effective(job.namespace) || id != job.id ::
        Find(jobs, ns, id) == Find(old(jobs), ns, id)
      ensures count == |Live(jobs, job.namespace)|
    {
      var ns := Effective(job.namespace);
      var record := job.(namespace := ns, polls := 0, cancelRequested := false, cancelAtPoll := 0);
      var live := if ns in jobs then jobs[ns] else map[];
      count := |live|;
      if record.id in live { return Duplicate, count; }
      if bound > 0 && count >= bound { return Full, count; }
      PutKeepsFiling(jobs, bound, record);
      PutFinds(jobs, ns, record.id, record);
      live := live[record.id := record];
      jobs := jobs[ns := live];
      return Created, |live|;
    }

    method Lookup(namespace: string, id: string) returns (job: Option<Job>)
      ensures job == Find(jobs, namespace, id)
    {
      var ns := Effective(namespace);
      if ns in jobs && id in jobs[ns] { return Some(jobs[ns][id]); }
      return None;
    }

    method Advance(namespace: string, id: string, i: int) returns (job: Option<Job>)
      modifies this
      ensures old(Find(jobs, namespace, id)).None? ==> job == None && jobs == old(jobs)
      ensures old(Find(jobs, namespace, id)).Some? ==>
        job == Some(Advanced(old(Find(jobs, namespace, id)).value, i)) &&
        jobs == Put(old(jobs), namespace, id, job.value)
      ensures old(Find(jobs, namespace, id)).Some? ==>
        var before := old(Find(jobs, namespace, id)).value;
        job.value == before.(polls := job.value.polls) && job.value.polls == Max(before.polls, i + 1)
    {
      var ns := Effective(namespace);
      var live := if ns in jobs then jobs[ns] else map[];
      if id !in live { return None; }
      var j := live[id];
      var next := if j.polls > i + 1 then j.polls else i + 1;
      j := j.(polls := next);
      jobs := jobs[ns := live[id := j]];
      return Some(j);
    }

    method MarkCancel(namespace: string, id: string, atPoll: nat)
      returns (job: Option<Job>, outcome: MarkOutcome)
      modifies this
      ensures old(Find(jobs, namespace, id)).None? ==> job == None && outcome == NotFound && jobs == old(jobs)
      ensures old(Find(jobs, namespace, id)).Some? ==>
        var before := old(Find(jobs, namespace, id)).value;
        && outcome == MarkReply(before, atPoll)
        && job == Some(MarkedAt(before, atPoll))
        && jobs == (if outcome.Marked? then Put(old(jobs), namespace, id, job.value) else old(jobs))
        && (outcome.AlreadyMarked? <==> before.cancelRequested)
        && (outcome.PositionMoved? <==> !before.cancelRequested && before.polls != atPoll)
        && !outcome.NotFound?
        && job.value == if outcome.Marked? then before.(cancelRequested := true, cancelAtPoll := atPoll) else before
    {
      var ns := Effective(namespace);
      var live := if ns in jobs then jobs[ns] else map[];
      if id !in live { return None, NotFound; }
      var j := live[id];
      if j.cancelRequested { return Some(j), AlreadyMarked; }
      if j.polls != atPoll { return Some(j), PositionMoved; }
      j := j.(cancelRequested := true, cancelAtPoll := atPoll);
      jobs := jobs[ns := live[id := j]];
      return Some(j), Marked;
    }

    /** Drops one namespace's records and leaves every other namespace untouched. */
    method ResetIn(namespace: string)
      modifies this
      ensures WellFiled(old(jobs), bound) ==> WellFiled(jobs, bound)
      ensures jobs == old(jobs) - {Effective(namespace)} && Live(jobs, namespace) == map[]
      ensures forall ns | Effective(ns) != Effective(namespace) :: Live(jobs, ns) == Live(old(jobs), ns)
    {
      jobs := jobs - {Effective(namespace)};
    }

    method Reset()
      modifies this
      ensures jobs == map[] && WellFiled(jobs, bound)
    {
      jobs := map[];
    }
  }
}
