/** Polls and cancels of one job. A poll claims a position and then records it on the job; a cancel
    reads the job, peeks the snapshot its next poll would be served, and records itself with a
    compare-and-set, retrying when a poll moved the position in between.

    A run is any sequence of events: each event is one request's next atomic step, so a run is one
    interleaving of any number of polls and cancels of the same job.  */
module Cancel {
  import opened Text
  import opened Jobs

  const MAX_CANCEL_TRIES := 8

  datatype Script = Own | AfterCancel

  /** A job's scripts as every poll and every cancel of it reads them: the turn a call of either is
      served, which depends on the call alone, and whether that turn ends the job. */
  datatype Scripts = Scripts(peek: (Script, int) -> Option<nat>, ends: (Script, nat) -> bool)

  /** What one position is served: a script, the call within it, and the turn selected there. */
  datatype Snapshot = Snapshot(script: Script, call: int, turn: Option<nat>)

  /** The script a poll at position index of job is served from, and the call within it. */
  function PollScript(job: Job, index: int): (Script, int) {
    if job.cancelRequested && index >= job.cancelAtPoll then (AfterCancel, index - job.cancelAtPoll)
    else (Own, index)
  }

  function Serve(s: Scripts, job: Job, index: int): Snapshot {
    var (script, call) := PollScript(job, index);
    Snapshot(script, call, s.peek(script, call))
  }

  predicate EndsJob(s: Scripts, shot: Snapshot) {
    shot.turn.Some? && s.ends(shot.script, shot.turn.value)
  }

  datatype Outcome = Recorded | Uncommitted | AlreadyCancelling | Terminal | Unscripted | Contended | Gone

  /** Where one cancel request is. Marking holds the record it last read, about to compare-and-set;
      Decided holds the answer and the position it was judged at. */
  datatype Canceller =
    | Begun(commits: bool)
    | Marking(commits: bool, seen: Job, tries: nat)
    | Decided(outcome: Outcome, shot: Option<Snapshot>, at: nat)

  function Cancelling(s: Scripts, job: Job): Canceller {
    var call := job.polls - job.cancelAtPoll;
    match s.peek(AfterCancel, call)
    case None => Decided(Unscripted, None, job.polls)
    case Some(t) => Decided(AlreadyCancelling, Some(Snapshot(AfterCancel, call, Some(t))), job.polls)
  }

  /** One round of the retry loop up to its compare-and-set, on the record last read. */
  function Consider(s: Scripts, commits: bool, job: Job, tries: nat): Canceller {
    if tries >= MAX_CANCEL_TRIES then Decided(Contended, None, job.polls)
    else if job.cancelRequested then Cancelling(s, job)
    else match s.peek(Own, job.polls)
      case None => Decided(Unscripted, None, job.polls)
      case Some(t) =>
        if s.ends(Own, t) then Decided(Terminal, Some(Snapshot(Own, job.polls, Some(t))), job.polls)
        else if !commits then Decided(Uncommitted, Some(Snapshot(Own, job.polls, Some(t))), job.polls)
        else if s.peek(AfterCancel, 0).None? then Decided(Unscripted, None, job.polls)
        else Marking(commits, job, tries)
  }

  /** What the compare-and-set's reply leads to. */
  function AfterMark(s: Scripts, c: Canceller, reply: MarkOutcome, after: Job): Canceller
    requires c.Marking?
  {
    match reply
    case Marked => Decided(Recorded, Some(Snapshot(AfterCancel, 0, s.peek(AfterCancel, 0))), c.seen.polls)
    case AlreadyMarked => Cancelling(s, after)
    case PositionMoved => Consider(s, c.commits, after, c.tries + 1)
    case NotFound => Decided(Gone, None, c.seen.polls)
  }

  // ---- runs ----

  datatype Poller = Claimed(index: int) | Answered(index: int, shot: Snapshot)

  datatype Thread = Poll(poller: Poller) | Cancel(canceller: Canceller)

  /** owners[i] is the poll that claimed position i, so the lane's counter is |owners|. */
  datatype State = State(owners: seq<nat>, job: Job, threads: map<nat, Thread>)

  datatype Event =
    | ClaimPoll(id: nat)
    | ClaimUnplanned(id: nat)     // the engine knows no plan for the lane: position -1, nothing counted
    | AdvancePoll(id: nat)
    | BeginCancel(id: nat, commits: bool)
    | ReadJob(id: nat)
    | MarkJob(id: nat)

  predicate PollerAt(s: State, id: nat) { id in s.threads && s.threads[id].Poll? }
  predicate CancellerAt(s: State, id: nat) { id in s.threads && s.threads[id].Cancel? }

  predicate Enabled(s: State, e: Event) {
    match e
    case AdvancePoll(id) => PollerAt(s, id) && s.threads[id].poller.Claimed?
    case ReadJob(id) => CancellerAt(s, id) && s.threads[id].canceller.Begun?
    case MarkJob(id) => CancellerAt(s, id) && s.threads[id].canceller.Marking?
    case _ => e.id !in s.threads
  }

  function Apply(scr: Scripts, s: State, e: Event): State {
    if !Enabled(s, e) then s else
    match e
    case ClaimPoll(id) =>
      s.(owners := s.owners + [id], threads := s.threads[id := Poll(Claimed(|s.owners|))])
    case ClaimUnplanned(id) =>
      s.(threads := s.threads[id := Poll(Claimed(-1))])
    case AdvancePoll(id) =>
      var index := s.threads[id].poller.index;
      var job := Advanced(s.job, index);
      s.(job := job, threads := s.threads[id := Poll(Answered(index, Serve(scr, job, index)))])
    case BeginCancel(id, commits) =>
      s.(threads := s.threads[id := Cancel(Begun(commits))])
    case ReadJob(id) =>
      s.(threads := s.threads[id := Cancel(Consider(scr, s.threads[id].canceller.commits, s.job, 0))])
    case MarkJob(id) =>
      var c := s.threads[id].canceller;
      var reply := MarkReply(s.job, c.seen.polls);
      var job := MarkedAt(s.job, c.seen.polls);
      s.(job := job, threads := s.threads[id := Cancel(AfterMark(scr, c, reply, job))])
  }

  /** A job just created, which no request has touched. */
  predicate Fresh(job: Job) { job.polls == 0 && !job.cancelRequested }

  function Run(scr: Scripts, job: Job, es: seq<Event>): State {
    if es == [] then State([], job, map[])
    else Apply(scr, Run(scr, job, es[..|es| - 1]), es[|es| - 1])
  }

  // ---- what every step keeps ----

  /** A cancel may be recorded at p: the next snapshot there is not terminal, and the cancel script
      answers. */
  predicate Cancellable(scr: Scripts, p: nat) {
    var t := scr.peek(Own, p);
    t.Some? && !scr.ends(Own, t.value) && scr.peek(AfterCancel, 0).Some?
  }

  predicate PollerInv(scr: Scripts, s: State, id: nat, p: Poller) {
    && -1 <= p.index < |s.owners|
    && (p.index >= 0 ==> s.owners[p.index] == id)
    && (p.Answered? ==> p.index < s.job.polls && p.shot == Serve(scr, s.job, p.index))
  }

  predicate CancellerInv(scr: Scripts, job: Job, c: Canceller) {
    match c
    case Begun(_) => true
    case Marking(commits, seen, tries) =>
      commits && tries < MAX_CANCEL_TRIES && seen.polls <= job.polls && Cancellable(scr, seen.polls)
    case Decided(outcome, shot, at) =>
      && at <= job.polls
      && match outcome
         case Recorded =>
           && job.cancelRequested && job.cancelAtPoll == at
           && shot == Some(Snapshot(AfterCancel, 0, scr.peek(AfterCancel, 0))) && shot.value.turn.Some?
         case AlreadyCancelling =>
           && job.cancelRequested && job.cancelAtPoll <= at
           && shot == Some(Snapshot(AfterCancel, at - job.cancelAtPoll, scr.peek(AfterCancel, at - job.cancelAtPoll)))
           && shot.value.turn.Some?
         case Terminal =>
           && (job.cancelRequested ==> at <= job.cancelAtPoll)
           && shot == Some(Snapshot(Own, at, scr.peek(Own, at))) && EndsJob(scr, shot.value)
         case Uncommitted =>
           && (job.cancelRequested ==> at <= job.cancelAtPoll)
           && shot == Some(Snapshot(Own, at, scr.peek(Own, at)))
           && shot.value.turn.Some? && !EndsJob(scr, shot.value)
         case _ => shot == None
  }

  predicate HasRecorded(t: Thread) { t.Cancel? && t.canceller.Decided? && t.canceller.outcome.Recorded? }

  ghost predicate Inv(scr: Scripts, s: State) {
    && s.job.polls <= |s.owners|
    && (s.job.cancelRequested ==> s.job.cancelAtPoll <= s.job.polls && Cancellable(scr, s.job.cancelAtPoll))
    && (forall i | 0 <= i < |s.owners| :: PollerAt(s, s.owners[i]) && s.threads[s.owners[i]].poller.index == i)
    && (forall id | PollerAt(s, id) :: PollerInv(scr, s, id, s.threads[id].poller))
    && (forall id | CancellerAt(s, id) :: CancellerInv(scr, s.job, s.threads[id].canceller))
    && (forall a, b |
          a in s.threads && b in s.threads && HasRecorded(s.threads[a]) && HasRecorded(s.threads[b]) :: a == b)
  }

  /** Each thread's own claims survive any change of the record another thread can make. */
  lemma ConsiderIsSound(scr: Scripts, commits: bool, job: Job, tries: nat)
    requires job.cancelRequested ==> job.cancelAtPoll <= job.polls
    ensures CancellerInv(scr, job, Consider(scr, commits, job, tries))
    ensures !HasRecorded(Cancel(Consider(scr, commits, job, tries)))
  {
  }

  lemma CancellerSurvivesAdvance(scr: Scripts, job: Job, i: int, c: Canceller)
    requires CancellerInv(scr, job, c)
    ensures CancellerInv(scr, Advanced(job, i), c)
  {
  }

  lemma CancellerSurvivesMark(scr: Scripts, job: Job, p: nat, c: Canceller)
    requires CancellerInv(scr, job, c) && Cancellable(scr, p)
    ensures CancellerInv(scr, MarkedAt(job, p), c)
  {
  }

  lemma StepPoll(scr: Scripts, s: State, e: Event)
    requires Inv(scr, s) && Enabled(s, e) && (e.ClaimPoll? || e.ClaimUnplanned? || e.BeginCancel?)
    ensures Inv(scr, Apply(scr, s, e))
  {
    var t := Apply(scr, s, e);
    forall id | PollerAt(t, id) ensures PollerInv(scr, t, id, t.threads[id].poller) {
      if id != e.id { assert PollerAt(s, id); }
    }
    forall id | CancellerAt(t, id) ensures CancellerInv(scr, t.job, t.threads[id].canceller) {
      if id != e.id { assert CancellerAt(s, id); }
    }
  }

  lemma StepAdvance(scr: Scripts, s: State, e: Event)
    requires Inv(scr, s) && Enabled(s, e) && e.AdvancePoll?
    ensures Inv(scr, Apply(scr, s, e))
  {
    var t := Apply(scr, s, e);
    assert PollerInv(scr, s, e.id, s.threads[e.id].poller);
    forall id | PollerAt(t, id) ensures PollerInv(scr, t, id, t.threads[id].poller) {
      if id != e.id { assert PollerAt(s, id) && PollerInv(scr, s, id, s.threads[id].poller); }
    }
    forall id | CancellerAt(t, id) ensures CancellerInv(scr, t.job, t.threads[id].canceller) {
      assert CancellerAt(s, id);
      CancellerSurvivesAdvance(scr, s.job, s.threads[e.id].poller.index, s.threads[id].canceller);
    }
  }

  lemma StepRead(scr: Scripts, s: State, e: Event)
    requires Inv(scr, s) && Enabled(s, e) && e.ReadJob?
    ensures Inv(scr, Apply(scr, s, e))
  {
    var t := Apply(scr, s, e);
    ConsiderIsSound(scr, s.threads[e.id].canceller.commits, s.job, 0);
    forall id | CancellerAt(t, id) ensures CancellerInv(scr, t.job, t.threads[id].canceller) {
      if id != e.id { assert CancellerAt(s, id); }
    }
    forall id | PollerAt(t, id) ensures PollerInv(scr, t, id, t.threads[id].poller) {
      assert PollerAt(s, id) && PollerInv(scr, s, id, s.threads[id].poller);
    }
  }

  lemma StepMark(scr: Scripts, s: State, e: Event)
    requires Inv(scr, s) && Enabled(s, e) && e.MarkJob?
    ensures Inv(scr, Apply(scr, s, e))
  {
    var t := Apply(scr, s, e);
    var c := s.threads[e.id].canceller;
    assert CancellerInv(scr, s.job, c);
    MarkedCancellerIsSound(scr, s.job, c);
    forall id | CancellerAt(t, id) ensures CancellerInv(scr, t.job, t.threads[id].canceller) {
      if id != e.id {
        assert CancellerAt(s, id);
        CancellerSurvivesMark(scr, s.job, c.seen.polls, s.threads[id].canceller);
      }
    }
    forall id | PollerAt(t, id) ensures PollerInv(scr, t, id, t.threads[id].poller) {
      assert PollerAt(s, id) && PollerInv(scr, s, id, s.threads[id].poller);
    }
    forall a | a in s.threads && HasRecorded(s.threads[a]) ensures s.job.cancelRequested {
      assert CancellerAt(s, a);
    }
  }

  /** The compare-and-set's caller decides soundly, and is marked as recorded only if it was not
      already so. */
  lemma MarkedCancellerIsSound(scr: Scripts, job: Job, c: Canceller)
    requires job.cancelRequested ==> job.cancelAtPoll <= job.polls
    requires c.Marking? && CancellerInv(scr, job, c)
    ensures
      var next := AfterMark(scr, c, MarkReply(job, c.seen.polls), MarkedAt(job, c.seen.polls));
      CancellerInv(scr, MarkedAt(job, c.seen.polls), next) && (HasRecorded(Cancel(next)) ==> !job.cancelRequested)
  {
    if MarkReply(job, c.seen.polls).PositionMoved? {
      ConsiderIsSound(scr, c.commits, job, c.tries + 1);
    }
  }

  lemma StepKeepsInv(scr: Scripts, s: State, e: Event)
    requires Inv(scr, s)
    ensures Inv(scr, Apply(scr, s, e))
  {
    if Enabled(s, e) {
      match e
      case AdvancePoll(_) => StepAdvance(scr, s, e);
      case ReadJob(_) => StepRead(scr, s, e);
      case MarkJob(_) => StepMark(scr, s, e);
      case _ => StepPoll(scr, s, e);
    }
  }

  lemma {:induction false} RunKeepsInv(scr: Scripts, job: Job, es: seq<Event>)
    requires Fresh(job)
    ensures Inv(scr, Run(scr, job, es))
  {
    if es != [] {
      RunKeepsInv(scr, job, es[..|es| - 1]);
      StepKeepsInv(scr, Run(scr, job, es[..|es| - 1]), es[|es| - 1]);
    }
  }
}
