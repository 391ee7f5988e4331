/** A cancel as a sequence of store operations, other requests landing before each: what every such
    sequence answers and writes, and the automaton's cancels as such sequences.  */
module CancelSteps {
  import opened Text
  import opened Jobs
  import opened Cancel
  import opened CancelRuns

  // ---- other requests ----

  /** One store operation of another request of the same job, or a reset that drops it. */
  datatype Other = Polled(index: int) | Cancelled(at: nat) | Dropped

  /** What lands before each of a cancel's own store operations. */
  type Others = nat -> seq<Other>

  function Land(job: Option<Job>, other: Other): Option<Job> {
    match other
    case Polled(index) => if job.None? then None else Some(Advanced(job.value, index))
    case Cancelled(at) => if job.None? then None else Some(MarkedAt(job.value, at))
    case Dropped => None
  }

  function Landed(job: Option<Job>, others: seq<Other>): Option<Job> {
    if others == [] then job else Land(Landed(job, others[..|others| - 1]), others[|others| - 1])
  }

  // ---- a cancel, store operation by store operation ----

  /** Where a cancel is, the record as it stands, and how many store operations it has made. */
  datatype Held = Held(canceller: Canceller, job: Option<Job>, made: nat)

  /** The next store operation of an undecided cancel, on the record others have left: the lookup, or a
      compare-and-set. */
  function Step(scr: Scripts, h: Held, others: seq<Other>): Held {
    var met := Landed(h.job, others);
    match h.canceller
    case Begun(commits) =>
      Held(if met.None? then Decided(Gone, None, 0) else Consider(scr, commits, met.value, 0), met, h.made + 1)
    case Marking(_, seen, _) =>
      if met.None? then Held(AfterMark(scr, h.canceller, NotFound, seen), None, h.made + 1)
      else
        var after := MarkedAt(met.value, seen.polls);
        Held(AfterMark(scr, h.canceller, MarkReply(met.value, seen.polls), after), Some(after), h.made + 1)
    case Decided(_, _, _) => h
  }

  /** After up to n store operations. */
  function Stage(scr: Scripts, commits: bool, job: Option<Job>, others: Others, n: nat): Held {
    if n == 0 then Held(Begun(commits), job, 0)
    else
      var before := Stage(scr, commits, job, others, n - 1);
      Step(scr, before, others(before.made))
  }

  const MAX_STORE_OPERATIONS: nat := 1 + MAX_CANCEL_TRIES

  lemma LookupIsAStep(scr: Scripts, commits: bool, job: Option<Job>, others: Others)
    ensures var met := Landed(job, others(0));
      Stage(scr, commits, job, others, 1)
      == Held(if met.None? then Decided(Gone, None, 0) else Consider(scr, commits, met.value, 0), met, 1)
  {
    hide Landed, Consider;
    assert Stage(scr, commits, job, others, 0) == Held(Begun(commits), job, 0);
  }

  /** A step does not depend on how many came before it. */
  lemma StepCounts(scr: Scripts, c: Canceller, job: Option<Job>, m: nat, n: nat, others: seq<Other>)
    requires !c.Decided?
    ensures var a, b := Step(scr, Held(c, job, m), others), Step(scr, Held(c, job, n), others);
      a.canceller == b.canceller && a.job == b.job && b.made == n + 1
  {
    hide Landed, Consider, AfterMark, MarkedAt;
  }

  lemma {:induction false} DecidedStays(
      scr: Scripts, commits: bool, job: Option<Job>, others: Others, n: nat, m: nat)
    requires n <= m && Stage(scr, commits, job, others, n).canceller.Decided?
    ensures Stage(scr, commits, job, others, m) == Stage(scr, commits, job, others, n)
    decreases m - n
  {
    hide Landed, Consider, AfterMark, MarkedAt;
    if n < m { DecidedStays(scr, commits, job, others, n, m - 1); }
  }

  lemma ConsideredMarks(scr: Scripts, commits: bool, job: Job, tries: nat)
    ensures var c := Consider(scr, commits, job, tries);
      !c.Decided? ==> c == Marking(commits, job, tries) && tries < MAX_CANCEL_TRIES
  {
  }

  lemma OutOfTries(scr: Scripts, commits: bool, job: Job)
    ensures Consider(scr, commits, job, MAX_CANCEL_TRIES) == Decided(Contended, None, job.polls)
  {
  }

  // ---- what a cancel did, whatever landed ----

  /** The record as other requests alone would leave it by a cancel's n-th store operation. */
  function AllLanded(job: Option<Job>, others: Others, n: nat): Option<Job> {
    if n == 0 then job else Landed(AllLanded(job, others, n - 1), others(n - 1))
  }

  /** Positions read at the lookup and at each compare-and-set so far, each above the last. */
  ghost predicate Climbing(job: Option<Job>, others: Others, made: nat) {
    && (forall k: nat | 1 <= k <= made :: AllLanded(job, others, k).Some?)
    && (forall k: nat | 1 <= k < made ::
          AllLanded(job, others, k).value.polls < AllLanded(job, others, k + 1).value.polls)
  }

  /** What an undecided cancel has done: only read, and lost every compare-and-set to a risen position. */
  ghost predicate StillTrying(commits: bool, job: Option<Job>, others: Others, n: nat, h: Held) {
    && h.made == n && h.job == AllLanded(job, others, n)
    && match h.canceller
       case Begun(c) => n == 0 && c == commits
       case Marking(c, seen, tries) =>
         c == commits && n == tries + 1 && n <= MAX_CANCEL_TRIES && h.job == Some(seen) && Climbing(job, others, n)
       case Decided(_, _, _) => false
  }

  /** What a decided cancel has done: a recorded one wrote itself, once, over an unmarked record at the
      position it was judged at; any other wrote nothing; and a contended one lost eight times. */
  ghost predicate Concluded(job: Option<Job>, others: Others, h: Held) {
    && h.canceller.Decided? && 1 <= h.made <= MAX_STORE_OPERATIONS
    && var met, at := AllLanded(job, others, h.made), h.canceller.at;
    && (h.canceller.outcome.Recorded? ==>
         && met.Some? && !met.value.cancelRequested && met.value.polls == at && h.made >= 2
         && h.job == Some(met.value.(cancelRequested := true, cancelAtPoll := at)))
    && (!h.canceller.outcome.Recorded? ==> h.job == met)
    && (h.canceller.outcome.Gone? ==> met.None?)
    && (h.canceller.outcome.Contended? ==> h.made == MAX_STORE_OPERATIONS && Climbing(job, others, h.made))
  }

  lemma LandedRises(job: Option<Job>, others: seq<Other>)
    ensures Landed(job, others).Some? ==> job.Some? && job.value.polls <= Landed(job, others).value.polls
  {
    if others != [] { LandedRises(job, others[..|others| - 1]); }
  }

  /** What a round decides without a compare-and-set: nothing is recorded, and contention is running out. */
  lemma RoundsOnlyRead(scr: Scripts, commits: bool, job: Job, tries: nat)
    ensures var c := Consider(scr, commits, job, tries);
      if c.Decided? then
        && !c.outcome.Recorded? && !c.outcome.Gone? && (c.outcome.Contended? ==> tries >= MAX_CANCEL_TRIES)
      else c == Marking(commits, job, tries) && tries < MAX_CANCEL_TRIES
  {
  }

  lemma ClimbOn(job: Option<Job>, others: Others, n: nat)
    requires n > 0 && Climbing(job, others, n) && AllLanded(job, others, n + 1).Some?
    requires AllLanded(job, others, n).value.polls < AllLanded(job, others, n + 1).value.polls
    ensures Climbing(job, others, n + 1)
  {
    hide AllLanded;
  }

  /** A record read by a round, at the lookup or after a lost compare-and-set. */
  lemma RoundConcludes(scr: Scripts, commits: bool, job: Option<Job>, others: Others, n: nat, h: Held)
    requires 0 < n <= MAX_STORE_OPERATIONS && Climbing(job, others, n)
    requires h.made == n && h.job == AllLanded(job, others, n) && h.job.Some?
    requires h.canceller == Consider(scr, commits, h.job.value, n - 1)
    ensures if h.canceller.Decided? then Concluded(job, others, h) else StillTrying(commits, job, others, n, h)
  {
    hide Consider, AllLanded, Climbing;
    RoundsOnlyRead(scr, commits, h.job.value, n - 1);
  }

  lemma LookupConcludes(scr: Scripts, commits: bool, job: Option<Job>, others: Others, h: Held)
    requires StillTrying(commits, job, others, 0, h)
    ensures var next := Step(scr, h, others(0));
      if next.canceller.Decided? then Concluded(job, others, next) && next.made == 1
      else StillTrying(commits, job, others, 1, next)
  {
    hide Landed, Consider;
    var met := Landed(h.job, others(0));
    assert AllLanded(job, others, 1) == met by { assert AllLanded(job, others, 0) == job; }
    if met.Some? {
      assert Climbing(job, others, 1);
      RoundConcludes(scr, commits, job, others, 1, Step(scr, h, others(0)));
    }
  }

  lemma MarkConcludes(scr: Scripts, commits: bool, job: Option<Job>, others: Others, n: nat, h: Held)
    requires n > 0 && StillTrying(commits, job, others, n, h)
    ensures var next := Step(scr, h, others(n));
      if next.canceller.Decided? then Concluded(job, others, next) && next.made == n + 1
      else StillTrying(commits, job, others, n + 1, next)
  {
    hide Landed, Consider, Climbing;
    LandedRises(h.job, others(n));
    var met := Landed(h.job, others(n));
    assert AllLanded(job, others, n + 1) == met;
    if met.Some? && MarkReply(met.value, h.canceller.seen.polls).PositionMoved? {
      ClimbOn(job, others, n);
      RoundConcludes(scr, commits, job, others, n + 1, Step(scr, h, others(n)));
    }
  }

  lemma {:induction false} StagesConclude(scr: Scripts, commits: bool, job: Option<Job>, others: Others, n: nat)
    ensures var h := Stage(scr, commits, job, others, n);
      if h.canceller.Decided? then Concluded(job, others, h) && h.made <= n else StillTrying(commits, job, others, n, h)
  {
    hide Step, StillTrying, Concluded;
    if n == 0 {
      FirstTry(commits, job, others);
    } else {
      StagesConclude(scr, commits, job, others, n - 1);
      var before := Stage(scr, commits, job, others, n - 1);
      if before.canceller.Decided? {
        DecidedStays(scr, commits, job, others, n - 1, n);
      } else {
        TriesAreMade(commits, job, others, n - 1, before);
        if n == 1 {
          LookupConcludes(scr, commits, job, others, before);
        } else {
          MarkConcludes(scr, commits, job, others, n - 1, before);
        }
      }
    }
  }

  lemma FirstTry(commits: bool, job: Option<Job>, others: Others)
    ensures StillTrying(commits, job, others, 0, Held(Begun(commits), job, 0))
  {
  }

  lemma TriesAreMade(commits: bool, job: Option<Job>, others: Others, n: nat, h: Held)
    requires StillTrying(commits, job, others, n, h)
    ensures h.made == n
  {
  }

  /** Whatever lands around it, a cancel decides within a lookup and eight compare-and-sets. It leaves the
      record exactly as the other requests alone would, but for the one mark a recorded cancel makes, over
      an unmarked record at the very position it answers for; it finds the job gone only when it is; and
      it gives up as contended only after reading nine strictly rising positions. */
  lemma CancelsWriteOnlyTheirMark(scr: Scripts, commits: bool, job: Option<Job>, others: Others)
    ensures Concluded(job, others, Stage(scr, commits, job, others, MAX_STORE_OPERATIONS))
  {
    hide Concluded;
    StagesConclude(scr, commits, job, others, MAX_STORE_OPERATIONS);
    NineTriesDecide(scr, commits, job, others, Stage(scr, commits, job, others, MAX_STORE_OPERATIONS));
  }

  lemma NineTriesDecide(scr: Scripts, commits: bool, job: Option<Job>, others: Others, h: Held)
    requires !h.canceller.Decided? ==> StillTrying(commits, job, others, MAX_STORE_OPERATIONS, h)
    ensures h.canceller.Decided?
  {
  }

  // ---- which answer, from the records read ----

  /** A record a cancel is recorded on, should its position still hold: unmarked, its next snapshot live,
      and the cancel script ready, under an attempt that commits. */
  predicate Cancels(scr: Scripts, commits: bool, job: Job) {
    var next := scr.peek(Own, job.polls);
    !job.cancelRequested && commits && next.Some? && !scr.ends(Own, next.value) && scr.peek(AfterCancel, 0).Some?
  }

  /** What a cancel answers from one read of any other record. */
  predicate AnswersFrom(scr: Scripts, commits: bool, job: Job, c: Canceller) {
    var next, call := scr.peek(Own, job.polls), job.polls - job.cancelAtPoll;
    var live := !job.cancelRequested && next.Some? && !scr.ends(Own, next.value);
    && c.Decided? && c.at == job.polls
    && (c.outcome.AlreadyCancelling? <==> job.cancelRequested && scr.peek(AfterCancel, call).Some?)
    && (c.outcome.Terminal? <==> !job.cancelRequested && next.Some? && scr.ends(Own, next.value))
    && (c.outcome.Uncommitted? <==> live && !commits)
    && (c.outcome.Unscripted? <==>
         || (job.cancelRequested && scr.peek(AfterCancel, call).None?)
         || (!job.cancelRequested && next.None?)
         || (live && commits && scr.peek(AfterCancel, 0).None?))
    && c.shot == (if c.outcome.AlreadyCancelling? then Some(Snapshot(AfterCancel, call, scr.peek(AfterCancel, call)))
                  else if c.outcome.Unscripted? then None
                  else Some(Snapshot(Own, job.polls, next)))
  }

  /** The whole answer, from the records the other requests alone would have left by each operation: the
      cancel went on as long as the record was one to be recorded on whose position had moved since it
      was last read, and what it met last decides. */
  ghost predicate AnswersTheReads(scr: Scripts, commits: bool, job: Option<Job>, others: Others, h: Held) {
    && h.canceller.Decided? && 1 <= h.made <= 9
    && Climbing(job, others, h.made - 1)
    && (forall k: nat | 1 <= k < h.made :: Cancels(scr, commits, AllLanded(job, others, k).value))
    && var met, c := AllLanded(job, others, h.made), h.canceller;
    if met.None? then c.outcome.Gone? && c.shot.None?
    else
      var unmoved := h.made >= 2 && AllLanded(job, others, h.made - 1).value.polls == met.value.polls;
      if !met.value.cancelRequested && unmoved then
        c == Decided(Recorded, Some(Snapshot(AfterCancel, 0, scr.peek(AfterCancel, 0))), met.value.polls)
      else if !met.value.cancelRequested && h.made == 9 then c == Decided(Contended, None, met.value.polls)
      else !Cancels(scr, commits, met.value) && AnswersFrom(scr, commits, met.value, c)
  }

  /** So far the cancel has only met records to be recorded on, each at a risen position. */
  ghost predicate Asked(scr: Scripts, commits: bool, job: Option<Job>, others: Others, n: nat, h: Held) {
    && StillTrying(commits, job, others, n, h)
    && forall k: nat | 1 <= k <= n ::
         AllLanded(job, others, k).Some? && Cancels(scr, commits, AllLanded(job, others, k).value)
  }

  /** One round, on a record just read, either marks it or answers from it. */
  lemma RoundAnswers(scr: Scripts, commits: bool, job: Job, tries: nat)
    requires tries < MAX_CANCEL_TRIES
    ensures var c := Consider(scr, commits, job, tries);
      if Cancels(scr, commits, job) then c == Marking(commits, job, tries) else AnswersFrom(scr, commits, job, c)
  {
  }

  lemma LookupAnswers(scr: Scripts, commits: bool, job: Option<Job>, others: Others, h: Held)
    requires Asked(scr, commits, job, others, 0, h)
    ensures var next := Step(scr, h, others(0));
      if next.canceller.Decided? then AnswersTheReads(scr, commits, job, others, next)
      else Asked(scr, commits, job, others, 1, next)
  {
    hide Landed, Consider, Cancels, AnswersFrom;
    LookupConcludes(scr, commits, job, others, h);
    var met := Landed(h.job, others(0));
    assert AllLanded(job, others, 1) == met by { assert AllLanded(job, others, 0) == job; }
    if met.Some? { RoundAnswers(scr, commits, met.value, 0); }
  }

  /** A compare-and-set on the record last read, as it stands now. */
  lemma MarkAnswers(scr: Scripts, commits: bool, job: Option<Job>, others: Others, n: nat, h: Held)
    requires 0 < n && Asked(scr, commits, job, others, n, h)
    ensures var next := Step(scr, h, others(n));
      if next.canceller.Decided? then AnswersTheReads(scr, commits, job, others, next)
      else Asked(scr, commits, job, others, n + 1, next)
  {
    hide Landed, Consider, Cancels, AnswersFrom, Climbing, AllLanded, StillTrying, Concluded;
    MarkConcludes(scr, commits, job, others, n, h);
    TryingMarks(commits, job, others, n, h);
    var met, seen := Landed(h.job, others(n)), h.canceller.seen;
    assert AllLanded(job, others, n + 1) == met by { NextLanded(job, others, n); }
    if met.Some? && met.value.polls != seen.polls && !met.value.cancelRequested && n < MAX_CANCEL_TRIES {
      RoundAnswers(scr, commits, met.value, n);
    }
    if met.Some? && met.value.cancelRequested { MarkedAnswers(scr, commits, met.value); }
    if n == MAX_CANCEL_TRIES && met.Some? { OutOfTries(scr, commits, met.value); }
  }

  lemma NextLanded(job: Option<Job>, others: Others, n: nat)
    ensures AllLanded(job, others, n + 1) == Landed(AllLanded(job, others, n), others(n))
  {
  }

  lemma TryingMarks(commits: bool, job: Option<Job>, others: Others, n: nat, h: Held)
    requires n > 0 && StillTrying(commits, job, others, n, h)
    ensures h.canceller.Marking? && h.canceller.commits == commits && h.canceller.tries == n - 1 < MAX_CANCEL_TRIES
    ensures h.made == n && h.job == AllLanded(job, others, n) == Some(h.canceller.seen) && Climbing(job, others, n)
  {
    hide Climbing, AllLanded;
  }

  lemma MarkedAnswers(scr: Scripts, commits: bool, job: Job)
    requires job.cancelRequested
    ensures !Cancels(scr, commits, job) && AnswersFrom(scr, commits, job, Cancelling(scr, job))
  {
  }

  lemma {:induction false} StagesAnswer(scr: Scripts, commits: bool, job: Option<Job>, others: Others, n: nat)
    ensures var h := Stage(scr, commits, job, others, n);
      if h.canceller.Decided? then AnswersTheReads(scr, commits, job, others, h)
      else Asked(scr, commits, job, others, n, h)
  {
    hide Step, StillTrying, AnswersTheReads;
    if n == 0 {
      FirstTry(commits, job, others);
    } else {
      StagesAnswer(scr, commits, job, others, n - 1);
      var before := Stage(scr, commits, job, others, n - 1);
      if before.canceller.Decided? {
        DecidedStays(scr, commits, job, others, n - 1, n);
      } else {
        TriesAreMade(commits, job, others, n - 1, before);
        if n == 1 {
          LookupAnswers(scr, commits, job, others, before);
        } else {
          MarkAnswers(scr, commits, job, others, n - 1, before);
        }
      }
    }
  }

  /** Every cancel answers exactly what the records it read say. */
  lemma CancelsAnswerTheirReads(scr: Scripts, commits: bool, job: Option<Job>, others: Others)
    ensures AnswersTheReads(scr, commits, job, others, Stage(scr, commits, job, others, MAX_STORE_OPERATIONS))
  {
    hide AnswersTheReads, StillTrying;
    StagesAnswer(scr, commits, job, others, MAX_STORE_OPERATIONS);
    NineTriesDecide(scr, commits, job, others, Stage(scr, commits, job, others, MAX_STORE_OPERATIONS));
  }

  /** Two consecutive reads among the first nine find the record at one position. */
  ghost predicate HoldsStill(job: Option<Job>, others: Others)
    requires forall k: nat | 1 <= k <= 9 :: AllLanded(job, others, k).Some?
  {
    exists k: nat | 1 <= k < 9 :: AllLanded(job, others, k).value.polls == AllLanded(job, others, k + 1).value.polls
  }

  /** While every record read is one to be recorded on, the cancel is recorded as soon as one position
      holds between two reads, and gives up only when none of nine does. */
  lemma CancelsAreRecordedOnceStill(scr: Scripts, commits: bool, job: Option<Job>, others: Others)
    requires forall k: nat | 1 <= k <= 9 ::
      AllLanded(job, others, k).Some? && Cancels(scr, commits, AllLanded(job, others, k).value)
    ensures var c := Stage(scr, commits, job, others, MAX_STORE_OPERATIONS).canceller;
      c.Decided? && c.outcome == if HoldsStill(job, others) then Recorded else Contended
  {
    hide AllLanded, Stage;
    CancelsAnswerTheirReads(scr, commits, job, others);
    var h := Stage(scr, commits, job, others, MAX_STORE_OPERATIONS);
    assert AllLanded(job, others, h.made).Some? && Cancels(scr, commits, AllLanded(job, others, h.made).value);
    if h.canceller.outcome.Recorded? {
      var k: nat := h.made - 1;
      assert AllLanded(job, others, k).value.polls == AllLanded(job, others, k + 1).value.polls;
    }
  }

  // ---- the automaton's cancels are such loops ----

  /** What the other requests of a run did to the record before each of one cancel's store operations; the
      last gap is still open. */
  function Gaps(scr: Scripts, job: Job, es: seq<Event>, id: nat): (gaps: seq<seq<Other>>)
    ensures |gaps| >= 1
  {
    if es == [] then [[]]
    else
      var s, e := Run(scr, job, es[..|es| - 1]), es[|es| - 1];
      var gaps := Gaps(scr, job, es[..|es| - 1], id);
      var last := |gaps| - 1;
      if !Enabled(s, e) then gaps
      else if e.id == id && (e.ReadJob? || e.MarkJob?) then gaps + [[]]
      else if e.AdvancePoll? then gaps[last := gaps[last] + [Polled(s.threads[e.id].poller.index)]]
      else if e.MarkJob? then gaps[last := gaps[last] + [Cancelled(s.threads[e.id].canceller.seen.polls)]]
      else gaps
  }

  function AsOthers(gaps: seq<seq<Other>>): Others { (k: nat) => if k < |gaps| then gaps[k] else [] }

  lemma LandOne(job: Option<Job>, others: seq<Other>, other: Other)
    ensures Landed(job, others + [other]) == Land(Landed(job, others), other)
  {
    assert (others + [other])[..|others|] == others;
  }

  lemma {:induction false} StagesAreLocal(
      scr: Scripts, commits: bool, job: Option<Job>, others: Others, same: Others, n: nat)
    requires forall k: nat | k < n :: others(k) == same(k)
    ensures Stage(scr, commits, job, others, n) == Stage(scr, commits, job, same, n)
    ensures Stage(scr, commits, job, others, n).made <= n
  {
    hide Landed, Consider, AfterMark, MarkedAt;
    if n > 0 { StagesAreLocal(scr, commits, job, others, same, n - 1); }
  }

  /** One cancel of a run, as far as it has got. */
  ghost predicate LoopsSoFar(scr: Scripts, job: Job, s: State, gaps: seq<seq<Other>>, id: nat, commits: bool) {
    && |gaps| >= 1
    && var n := |gaps| - 1;
    && var h := Stage(scr, commits, Some(job), AsOthers(gaps), n);
    && Landed(h.job, gaps[n]) == Some(s.job) && h.made == n
    && (CancellerAt(s, id) ==> h.canceller == s.threads[id].canceller)
    && (!CancellerAt(s, id) ==> n == 0)
  }

  lemma OthersLand(
      scr: Scripts, job: Job, s: State, t: State, gaps: seq<seq<Other>>, id: nat, commits: bool, other: Option<Other>)
    requires LoopsSoFar(scr, job, s, gaps, id, commits)
    requires if other.None? then t.job == s.job else Some(t.job) == Land(Some(s.job), other.value)
    requires CancellerAt(s, id) ==> CancellerAt(t, id) && t.threads[id] == s.threads[id]
    requires !CancellerAt(s, id) && CancellerAt(t, id) ==> t.threads[id].canceller == Begun(commits)
    ensures var last := |gaps| - 1;
      LoopsSoFar(scr, job, t, if other.None? then gaps else gaps[last := gaps[last] + [other.value]], id, commits)
  {
    hide Landed, Step;
    var n := |gaps| - 1;
    if other.Some? {
      var more := gaps[n := gaps[n] + [other.value]];
      StagesAreLocal(scr, commits, Some(job), AsOthers(gaps), AsOthers(more), n);
      LandOne(Stage(scr, commits, Some(job), AsOthers(gaps), n).job, gaps[n], other.value);
    }
  }

  /** A cancel's own event is its loop's next step, on the record the others have left. */
  lemma OwnEventIsAStep(scr: Scripts, s: State, e: Event, h: Held, others: seq<Other>)
    requires (e.ReadJob? || e.MarkJob?) && Enabled(s, e)
    requires h.canceller == s.threads[e.id].canceller && Landed(h.job, others) == Some(s.job)
    ensures var t, next := Apply(scr, s, e), Step(scr, h, others);
      && CancellerAt(t, e.id) && next.canceller == t.threads[e.id].canceller
      && next.job == Some(t.job) && next.made == h.made + 1
  {
    hide Landed, Consider, AfterMark, MarkReply, MarkedAt;
  }

  lemma OwnStep(scr: Scripts, job: Job, s: State, e: Event, gaps: seq<seq<Other>>, commits: bool)
    requires LoopsSoFar(scr, job, s, gaps, e.id, commits) && (e.ReadJob? || e.MarkJob?) && Enabled(s, e)
    ensures LoopsSoFar(scr, job, Apply(scr, s, e), gaps + [[]], e.id, commits)
  {
    hide Landed, Step, Apply;
    var n := |gaps| - 1;
    var more := gaps + [[]];
    StagesAreLocal(scr, commits, Some(job), AsOthers(gaps), AsOthers(more), n);
    assert AsOthers(more)(n) == gaps[n];
    OwnEventIsAStep(scr, s, e, Stage(scr, commits, Some(job), AsOthers(more), n), gaps[n]);
    LandNone(Stage(scr, commits, Some(job), AsOthers(more), n + 1).job);
  }

  lemma LandNone(job: Option<Job>)
    ensures Landed(job, []) == job
  {
  }

  /** What a run's cancel began with, if it has begun. */
  function BegunWith(scr: Scripts, job: Job, es: seq<Event>, id: nat): bool {
    if es == [] then false
    else
      var s, e := Run(scr, job, es[..|es| - 1]), es[|es| - 1];
      if e.BeginCancel? && e.id == id && Enabled(s, e) then e.commits
      else BegunWith(scr, job, es[..|es| - 1], id)
  }

  lemma BeginningIsOpen(
      scr: Scripts, job: Job, s: State, gaps: seq<seq<Other>>, id: nat, commits: bool, other: bool)
    requires LoopsSoFar(scr, job, s, gaps, id, commits) && !CancellerAt(s, id)
    ensures LoopsSoFar(scr, job, s, gaps, id, other)
  {
    hide Landed;
  }

  /** One step of a run seen by the cancel id: its own store operation, another's write, or neither. */
  lemma StepLoops(scr: Scripts, job: Job, es: seq<Event>, id: nat)
    requires es != []
    requires var before := es[..|es| - 1];
      LoopsSoFar(scr, job, Run(scr, job, before), Gaps(scr, job, before, id), id, BegunWith(scr, job, before, id))
    ensures LoopsSoFar(scr, job, Run(scr, job, es), Gaps(scr, job, es, id), id, BegunWith(scr, job, es, id))
  {
    hide LoopsSoFar, Consider, AfterMark, Stage, Landed;
    var before, e := es[..|es| - 1], es[|es| - 1];
    var s, t, gaps := Run(scr, job, before), Run(scr, job, es), Gaps(scr, job, before, id);
    var commits := BegunWith(scr, job, es, id);
    if e.BeginCancel? && e.id == id && Enabled(s, e) {
      BeginningIsOpen(scr, job, s, gaps, id, BegunWith(scr, job, before, id), commits);
    }
    if !Enabled(s, e) {
      OthersLand(scr, job, s, t, gaps, id, commits, None);
    } else if e.id == id && (e.ReadJob? || e.MarkJob?) {
      OwnStep(scr, job, s, e, gaps, commits);
    } else if e.AdvancePoll? {
      OthersLand(scr, job, s, t, gaps, id, commits, Some(Polled(s.threads[e.id].poller.index)));
    } else if e.MarkJob? {
      OthersLand(scr, job, s, t, gaps, id, commits, Some(Cancelled(s.threads[e.id].canceller.seen.polls)));
    } else {
      OthersLand(scr, job, s, t, gaps, id, commits, None);
    }
  }

  lemma {:induction false} RunsLoop(scr: Scripts, job: Job, es: seq<Event>, id: nat)
    ensures LoopsSoFar(scr, job, Run(scr, job, es), Gaps(scr, job, es, id), id, BegunWith(scr, job, es, id))
  {
    hide LoopsSoFar;
    if es == [] {
      NothingLoops(scr, job, id);
    } else {
      RunsLoop(scr, job, es[..|es| - 1], id);
      StepLoops(scr, job, es, id);
    }
  }

  lemma NothingLoops(scr: Scripts, job: Job, id: nat)
    ensures LoopsSoFar(scr, job, Run(scr, job, []), [[]], id, false)
  {
  }

  /** In every interleaving, a decided cancel answers as its loop does on what the rest of the run did to
      the record between its store operations, and the rest of the run accounts for the record. */
  lemma InterleavedCancelsAreLoops(scr: Scripts, job: Job, es: seq<Event>, id: nat)
    requires var s := Run(scr, job, es); CancellerAt(s, id) && s.threads[id].canceller.Decided?
    ensures
      var s, gaps := Run(scr, job, es), Gaps(scr, job, es, id);
      var h := Stage(scr, BegunWith(scr, job, es, id), Some(job), AsOthers(gaps), MAX_STORE_OPERATIONS);
      && s.threads[id].canceller == h.canceller
      && h.made == |gaps| - 1
      && Landed(h.job, gaps[h.made]) == Some(s.job)
  {
    hide Landed, Step, Stage, Run, Gaps, BegunWith;
    RunsLoop(scr, job, es, id);
    var gaps, commits := Gaps(scr, job, es, id), BegunWith(scr, job, es, id);
    DecidedWithinTheBound(scr, commits, Some(job), AsOthers(gaps), |gaps| - 1);
  }

  lemma DecidedWithinTheBound(scr: Scripts, commits: bool, job: Option<Job>, others: Others, n: nat)
    requires Stage(scr, commits, job, others, n).canceller.Decided?
    ensures Stage(scr, commits, job, others, MAX_STORE_OPERATIONS) == Stage(scr, commits, job, others, n)
  {
    hide Stage, Concluded;
    if n <= MAX_STORE_OPERATIONS {
      DecidedStays(scr, commits, job, others, n, MAX_STORE_OPERATIONS);
    } else {
      CancelsWriteOnlyTheirMark(scr, commits, job, others);
      ConcludedIsDecided(job, others, Stage(scr, commits, job, others, MAX_STORE_OPERATIONS));
      DecidedStays(scr, commits, job, others, MAX_STORE_OPERATIONS, n);
    }
  }

  lemma ConcludedIsDecided(job: Option<Job>, others: Others, h: Held)
    requires Concluded(job, others, h)
    ensures h.canceller.Decided?
  {
  }
}
