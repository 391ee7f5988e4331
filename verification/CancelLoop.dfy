/** A poll and a cancel as they run on the job store, other requests landing before each of a cancel's
    store operations.  */
module CancelLoop {
  import opened Text
  import opened Turns
  import opened Jobs
  import opened Lanes
  import opened Cancel
  import opened CancelRuns
  import opened CancelSteps

  // ---- polls ----

  /** What a poll's Advance answers: the moved record, or a zero one for a job a reset has dropped. */
  function AdvancedOrZero(found: Option<Job>, index: int): Job {
    if found.Some? then Advanced(found.value, index) else Job("", "", "", "", 0, 0, false, 0)
  }

  /** A poll: advances the record unconditionally, then serves what it now says. A job that a reset has
      dropped since it was resolved is served from its own turns. */
  method SelectPollTurn(store: Registry, namespace: string, id: string, d: Declared, index: int)
    returns (shot: Snapshot)
    modifies store
    ensures
      var found := old(Find(store.jobs, namespace, id));
      && shot == Serve(d.Scripts(), AdvancedOrZero(found, index), index)
      && (found.None? ==> store.jobs == old(store.jobs) && shot.script == Own && shot.call == index)
      && (found.Some? ==> store.jobs == Put(old(store.jobs), namespace, id, Advanced(found.value, index)))
    ensures
      var found := old(Find(store.jobs, namespace, id));
      var past := found.Some? && found.value.cancelRequested && index >= found.value.cancelAtPoll;
      && shot.call == (if past then index - found.value.cancelAtPoll else index)
      && var turns := if !past then d.turns else if d.cancel.Some? then d.cancel.value else [];
      shot.turn == Served(turns, d.route, shot.call)
  {
    var found := store.Advance(namespace, id, index);
    var job := if found.Some? then found.value else Job("", "", "", "", 0, 0, false, 0);
    var cancelled := job.cancelRequested && index >= job.cancelAtPoll;
    var script := if cancelled then AfterCancel else Own;
    var call := if cancelled then index - job.cancelAtPoll else index;
    var at := SelectTurn(d.Turns(script), call, d.route, NO_BODY);
    shot := Snapshot(script, call, at);
  }

  /** Every other record is as it was, but for the namespace's when a reset dropped it. */
  ghost predicate Elsewhere(before: Records, after: Records, namespace: string, id: string, dropped: bool) {
    forall ns, i | Effective(ns) != Effective(namespace) || i != id ::
      Find(after, ns, i) == if dropped && Effective(ns) == Effective(namespace) then None else Find(before, ns, i)
  }

  method OtherRequests(store: Registry, namespace: string, id: string, others: seq<Other>)
    modifies store
    ensures Find(store.jobs, namespace, id) == Landed(old(Find(store.jobs, namespace, id)), others)
    ensures Elsewhere(old(store.jobs), store.jobs, namespace, id, Dropped in others)
  {
    hide Put;
    for n := 0 to |others|
      invariant Elsewhere(old(store.jobs), store.jobs, namespace, id, Dropped in others[..n])
      invariant Find(store.jobs, namespace, id) == Landed(old(Find(store.jobs, namespace, id)), others[..n])
    {
      assert others[..n + 1] == others[..n] + [others[n]];
      label Before:
      ghost var was := Find(store.jobs, namespace, id);
      match others[n] {
        case Polled(index) =>
          if was.Some? { PutFinds(store.jobs, namespace, id, Advanced(was.value, index)); }
          var _ := store.Advance(namespace, id, index);
        case Cancelled(at) =>
          if was.Some? { PutFinds(store.jobs, namespace, id, MarkedAt(was.value, at)); }
          var _, _ := store.MarkCancel(namespace, id, at);
        case Dropped => store.ResetIn(namespace);
      }
      assert Elsewhere(old@Before(store.jobs), store.jobs, namespace, id, others[n] == Dropped);
    }
    assert others[..|others|] == others;
  }

  /** One round's peeks, before its compare-and-set. */
  method Decide(d: Declared, commits: bool, job: Job, tries: nat) returns (c: Canceller)
    requires tries < MAX_CANCEL_TRIES
    ensures c == Consider(d.Scripts(), commits, job, tries)
    ensures if Cancels(d.Scripts(), commits, job) then c == Marking(commits, job, tries)
            else AnswersFrom(d.Scripts(), commits, job, c)
  {
    RoundAnswers(d.Scripts(), commits, job, tries);
    if job.cancelRequested { return Cancelling(d.Scripts(), job); }
    var next := SelectTurn(d.turns, job.polls, d.route, NO_BODY);
    if next.None? { return Decided(Unscripted, None, job.polls); }
    var peeked := Some(Snapshot(Own, job.polls, next));
    assert d.Scripts().ends(Own, next.value) == d.Ends(Own, next.value) == d.terminal(d.turns[next.value]);
    if d.terminal(d.turns[next.value]) { return Decided(Terminal, peeked, job.polls); }
    if !commits { return Decided(Uncommitted, peeked, job.polls); }
    var start := SelectTurn(d.Turns(AfterCancel), 0, d.route, NO_BODY);
    if start.None? { return Decided(Unscripted, None, job.polls); }
    return Marking(commits, job, tries);
  }

  lemma MarkingFinds(jobs: Records, namespace: string, id: string, at: nat)
    ensures Find(jobs, namespace, id).Some? ==>
      Elsewhere(jobs, Put(jobs, namespace, id, MarkedAt(Find(jobs, namespace, id).value, at)), namespace, id, false)
  {
    hide Put;
    if Find(jobs, namespace, id).Some? { PutFinds(jobs, namespace, id, MarkedAt(Find(jobs, namespace, id).value, at)); }
  }

  /** Some reset lands before one of the first n store operations. */
  ghost predicate DropsWithin(others: Others, n: nat) { exists k: nat :: k < n && Dropped in others(k) }

  lemma ElsewhereOn(
      a: Records, b: Records, c: Records, namespace: string, id: string, others: Others, n: nat)
    requires Elsewhere(a, b, namespace, id, DropsWithin(others, n))
    requires Elsewhere(b, c, namespace, id, Dropped in others(n))
    ensures Elsewhere(a, c, namespace, id, DropsWithin(others, n + 1))
  {
    hide Find;
  }

  /** One compare-and-set, other requests landing before it: an answer, or the record a moved position
      is to be considered on again. */
  method Attempt(store: Registry, namespace: string, id: string, d: Declared, commits: bool, job: Job, tries: nat,
                 others: seq<Other>)
    returns (c: Canceller, moved: Option<Job>)
    modifies store
    ensures
      var h := Step(d.Scripts(), Held(Marking(commits, job, tries), old(Find(store.jobs, namespace, id)), 0), others);
      && Find(store.jobs, namespace, id) == h.job
      && h.canceller == (if moved.Some? then Consider(d.Scripts(), commits, moved.value, tries + 1) else c)
      && (moved.None? ==> c.Decided?)
    ensures Elsewhere(old(store.jobs), store.jobs, namespace, id, Dropped in others)
  {
    hide Landed, Consider, Put;
    OtherRequests(store, namespace, id, others);
    MarkingFinds(store.jobs, namespace, id, job.polls);
    var after, outcome := store.MarkCancel(namespace, id, job.polls);
    PutIsFound(namespace, id);
    c, moved := Decided(Gone, None, job.polls), None;
    match outcome {
      case PositionMoved =>
        moved := after;
      case Marked =>
        var start := SelectTurn(d.Turns(AfterCancel), 0, d.route, NO_BODY);
        c := Decided(Recorded, Some(Snapshot(AfterCancel, 0, start)), job.polls);
      case AlreadyMarked =>
        c := Cancelling(d.Scripts(), after.value);
      case NotFound =>
    }
  }

  /** The retry loop, other requests landing before each of its store operations: it answers what the
      records it read say, and leaves the record, as the automaton's steps do on what it met. */
  method CancelJob(store: Registry, namespace: string, id: string, d: Declared, commits: bool, others: Others)
    returns (c: Canceller, ghost made: nat)
    modifies store
    ensures Held(c, Find(store.jobs, namespace, id), made)
         == Stage(d.Scripts(), commits, old(Find(store.jobs, namespace, id)), others, MAX_STORE_OPERATIONS)
    ensures var was, h := old(Find(store.jobs, namespace, id)), Held(c, Find(store.jobs, namespace, id), made);
      AnswersTheReads(d.Scripts(), commits, was, others, h) && Concluded(was, others, h)
    ensures Elsewhere(old(store.jobs), store.jobs, namespace, id, DropsWithin(others, made))
  {
    hide Landed, Consider, Put, Step, Elsewhere, AnswersTheReads, Concluded, Cancels, AnswersFrom;
    CancelsAnswerTheirReads(d.Scripts(), commits, Find(store.jobs, namespace, id), others);
    CancelsWriteOnlyTheirMark(d.Scripts(), commits, Find(store.jobs, namespace, id), others);
    ElsewhereStarts(store.jobs, namespace, id, others);
    ghost var scr, was := d.Scripts(), Find(store.jobs, namespace, id);
    OtherRequests(store, namespace, id, others(0));
    var found := store.Lookup(namespace, id);
    made := 1;
    ElsewhereOn(old(store.jobs), old(store.jobs), store.jobs, namespace, id, others, 0);
    LookupIsAStep(scr, commits, was, others);
    c := Decided(Gone, None, 0);
    if found.Some? {
      var job := found.value;
      for tries := 0 to MAX_CANCEL_TRIES
        invariant made == tries + 1
        invariant Held(Consider(scr, commits, job, tries), Find(store.jobs, namespace, id), made)
               == Stage(scr, commits, was, others, made)
        invariant Elsewhere(old(store.jobs), store.jobs, namespace, id, DropsWithin(others, made))
      {
        label Before:
        c := Decide(d, commits, job, tries);
        if c.Decided? {
          DecidedStays(scr, commits, was, others, made, MAX_STORE_OPERATIONS);
          return;
        }
        ConsideredMarks(scr, commits, job, tries);
        StepCounts(scr, c, Find(store.jobs, namespace, id), 0, made, others(made));
        var moved;
        c, moved := Attempt(store, namespace, id, d, commits, job, tries, others(tries + 1));
        ElsewhereOn(old(store.jobs), old@Before(store.jobs), store.jobs, namespace, id, others, made);
        made := made + 1;
        if moved.None? {
          DecidedStays(scr, commits, was, others, made, MAX_STORE_OPERATIONS);
          return;
        }
        job := moved.value;
      }
      c := Decided(Contended, None, job.polls);
      OutOfTries(scr, commits, job);
    } else {
      DecidedStays(scr, commits, was, others, 1, MAX_STORE_OPERATIONS);
    }
  }

  lemma ElsewhereStarts(jobs: Records, namespace: string, id: string, others: Others)
    ensures Elsewhere(jobs, jobs, namespace, id, DropsWithin(others, 0))
  {
  }

  lemma PutIsFound(namespace: string, id: string)
    ensures forall jobs, job :: Find(Put(jobs, namespace, id, job), namespace, id) == Some(job)
  {
  }
}
