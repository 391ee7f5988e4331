/** What every interleaving of polls and cancels of one job guarantees.  */
module CancelRuns {
  import opened Text
  import opened Turns
  import opened Regressions
  import opened Jobs
  import opened Cancel

  /** Every race resolves to one order: whatever the interleaving, an answered poll was served what
      the final record says about its position alone, from the cancel script at i - p once a cancel is
      recorded at p <= i and from the job's own turns at i otherwise. */
  lemma PollsAreServedByPosition(scr: Scripts, job: Job, es: seq<Event>, id: nat)
    requires Fresh(job)
    requires PollerAt(Run(scr, job, es), id) && Run(scr, job, es).threads[id].poller.Answered?
    ensures
      var s := Run(scr, job, es);
      var poll := s.threads[id].poller;
      && (s.job.cancelRequested && poll.index >= s.job.cancelAtPoll ==>
            var call := poll.index - s.job.cancelAtPoll;
            poll.shot == Snapshot(AfterCancel, call, scr.peek(AfterCancel, call)))
      && (!s.job.cancelRequested || poll.index < s.job.cancelAtPoll ==>
            poll.shot == Snapshot(Own, poll.index, scr.peek(Own, poll.index)))
  {
    RunKeepsInv(scr, job, es);
    assert PollerInv(scr, Run(scr, job, es), id, Run(scr, job, es).threads[id].poller);
  }

  /** Two runs that end with the same recorded cancel serve every position alike, however their
      claims, advances and cancels were scheduled. */
  lemma ScheduleIsInvisible(scr: Scripts, job: Job, es1: seq<Event>, es2: seq<Event>, a: nat, b: nat)
    requires Fresh(job)
    requires var s1, s2 := Run(scr, job, es1), Run(scr, job, es2);
      && s1.job.cancelRequested == s2.job.cancelRequested
      && (s1.job.cancelRequested ==> s1.job.cancelAtPoll == s2.job.cancelAtPoll)
      && PollerAt(s1, a) && PollerAt(s2, b)
      && s1.threads[a].poller.Answered? && s2.threads[b].poller.Answered?
      && s1.threads[a].poller.index == s2.threads[b].poller.index
    ensures Run(scr, job, es1).threads[a].poller.shot == Run(scr, job, es2).threads[b].poller.shot
  {
    PollsAreServedByPosition(scr, job, es1, a);
    PollsAreServedByPosition(scr, job, es2, b);
  }

  /** No two polls share a position. */
  lemma PositionsAreUnique(scr: Scripts, job: Job, es: seq<Event>, a: nat, b: nat)
    requires Fresh(job) && a != b
    requires var s := Run(scr, job, es);
      PollerAt(s, a) && PollerAt(s, b) && s.threads[a].poller.index >= 0
    ensures var s := Run(scr, job, es); s.threads[a].poller.index != s.threads[b].poller.index
  {
    RunKeepsInv(scr, job, es);
    var s := Run(scr, job, es);
    assert PollerInv(scr, s, a, s.threads[a].poller) && PollerInv(scr, s, b, s.threads[b].poller);
  }

  // ---- one step, and the steps after it ----

  /** The position never falls, a recorded cancel never moves, and a decided cancel stays decided. */
  lemma StepOnlyGrows(scr: Scripts, s: State, e: Event)
    ensures var t := Apply(scr, s, e);
      && s.job.polls <= t.job.polls && (t.job.polls != s.job.polls ==> e.AdvancePoll?)
      && (s.job.cancelRequested ==> t.job.cancelRequested && t.job.cancelAtPoll == s.job.cancelAtPoll)
      && (forall id | CancellerAt(s, id) && s.threads[id].canceller.Decided? ::
            CancellerAt(t, id) && t.threads[id] == s.threads[id])
  {
  }

  lemma {:induction false} RunOnlyGrows(scr: Scripts, job: Job, es: seq<Event>, more: seq<Event>)
    ensures var s, t := Run(scr, job, es), Run(scr, job, es + more);
      && s.job.polls <= t.job.polls
      && (s.job.cancelRequested ==> t.job.cancelRequested && t.job.cancelAtPoll == s.job.cancelAtPoll)
      && (forall id | CancellerAt(s, id) && s.threads[id].canceller.Decided? ::
            CancellerAt(t, id) && t.threads[id] == s.threads[id])
  {
    if more == [] {
      assert es + more == es;
    } else {
      var n := |more| - 1;
      RunOnlyGrows(scr, job, es, more[..n]);
      assert (es + more)[..|es + more| - 1] == es + more[..n] && (es + more)[|es + more| - 1] == more[n];
      StepOnlyGrows(scr, Run(scr, job, es + more[..n]), more[n]);
    }
  }

  /** A step that decides a cancel: the store operation the cancel linearises at. */
  predicate Decides(scr: Scripts, s: State, e: Event) {
    && (e.ReadJob? || e.MarkJob?) && Enabled(s, e)
    && Apply(scr, s, e).threads[e.id].canceller.Decided?
  }

  /** The answer is about the position the record holds at that very step; only Recorded writes, and
      it writes exactly that position. */
  lemma DecisionIsAtomic(scr: Scripts, job: Job, es: seq<Event>, e: Event)
    requires Fresh(job) && Decides(scr, Run(scr, job, es), e)
    ensures
      var s := Run(scr, job, es);
      var t := Apply(scr, s, e);
      var c := t.threads[e.id].canceller;
      && c.at == s.job.polls
      && (!c.outcome.Recorded? ==> t.job == s.job)
      && (c.outcome.Recorded? ==>
            !s.job.cancelRequested && t.job == s.job.(cancelRequested := true, cancelAtPoll := s.job.polls))
  {
    RunKeepsInv(scr, job, es);
  }

  /** At most one cancel is ever recorded. */
  lemma OneCancelIsRecorded(scr: Scripts, job: Job, es: seq<Event>, a: nat, b: nat)
    requires Fresh(job)
    requires var s := Run(scr, job, es);
      a in s.threads && b in s.threads && HasRecorded(s.threads[a]) && HasRecorded(s.threads[b])
    ensures a == b
  {
    RunKeepsInv(scr, job, es);
  }

  /** The snapshot a cancel answers with is a promise: in every continuation, the poll at the position
      it was judged at is served exactly that snapshot, unless the answer was Uncommitted and some
      cancel is recorded at that same position. */
  lemma PromiseIsKept(scr: Scripts, job: Job, es: seq<Event>, more: seq<Event>, cancel: nat, poll: nat)
    requires Fresh(job)
    requires var s, t := Run(scr, job, es), Run(scr, job, es + more);
      && CancellerAt(s, cancel) && s.threads[cancel].canceller.Decided?
      && s.threads[cancel].canceller.shot.Some?
      && PollerAt(t, poll) && t.threads[poll].poller.Answered?
      && t.threads[poll].poller.index == s.threads[cancel].canceller.at
    ensures
      var c := Run(scr, job, es).threads[cancel].canceller;
      var t := Run(scr, job, es + more);
      (t.threads[poll].poller.shot == c.shot.value) <==>
      !(c.outcome.Uncommitted? && t.job.cancelRequested && t.job.cancelAtPoll == c.at)
  {
    RunKeepsInv(scr, job, es + more);
    RunOnlyGrows(scr, job, es, more);
    var t := Run(scr, job, es + more);
    assert CancellerInv(scr, t.job, t.threads[cancel].canceller);
    assert PollerInv(scr, t, poll, t.threads[poll].poller);
  }

  lemma RunPrefix(scr: Scripts, job: Job, es: seq<Event>, n: nat)
    requires n < |es|
    ensures Run(scr, job, es[..n + 1]) == Apply(scr, Run(scr, job, es[..n]), es[n])
  {
    assert es[..n + 1][..n] == es[..n];
  }

  /** The exception is real: a cancel that committed nothing answers with the snapshot at 0, another
      cancel is recorded there, and the poll at 0 is served the cancel script instead. */
  lemma AnUncommittedAnswerIsBroken(job: Job)
    requires Fresh(job)
    ensures
      var scr := Scripts((which, call) => Some(0), (which, at: nat) => false);
      var es := [BeginCancel(0, false), ReadJob(0)];
      var more := [BeginCancel(1, true), ReadJob(1), MarkJob(1), ClaimPoll(2), AdvancePoll(2)];
      var s, t := Run(scr, job, es), Run(scr, job, es + more);
      && CancellerAt(s, 0) && s.threads[0].canceller == Decided(Uncommitted, Some(Snapshot(Own, 0, Some(0))), 0)
      && PollerAt(t, 2) && t.threads[2].poller == Answered(0, Snapshot(AfterCancel, 0, Some(0)))
  {
    hide Run;
    var scr := Scripts((which, call) => Some(0), (which, at: nat) => false);
    var es := [BeginCancel(0, false), ReadJob(0)];
    var more := [BeginCancel(1, true), ReadJob(1), MarkJob(1), ClaimPoll(2), AdvancePoll(2)];
    assert Run(scr, job, []) == State([], job, map[]) by { NothingRuns(scr, job); }
    var all := es + more;
    assert all[..0] == [] && all[..2] == es && all[..7] == all;
    RunPrefix(scr, job, all, 0);
    RunPrefix(scr, job, all, 1);
    assert Run(scr, job, es).threads == map[0 := Cancel(Decided(Uncommitted, Some(Snapshot(Own, 0, Some(0))), 0))];
    RunPrefix(scr, job, all, 2);
    RunPrefix(scr, job, all, 3);
    RunPrefix(scr, job, all, 4);
    RunPrefix(scr, job, all, 5);
    RunPrefix(scr, job, all, 6);
  }

  lemma NothingRuns(scr: Scripts, job: Job)
    ensures Run(scr, job, []) == State([], job, map[])
  {
  }

  /** A script's snapshots and the profile's judgement of them, as the load-time check takes them. */
  function Positions(scr: Scripts, which: Script): Service { i => scr.peek(which, i) }
  function Verdicts(scr: Scripts, which: Script): Judge { (i: nat) => Some(scr.ends(which, i)) }

  ghost predicate NeverRegresses(scr: Scripts, which: Script) {
    Absorbing(Positions(scr, which), Verdicts(scr, which))
  }

  /** Positions of one record, in order: neither the job's own turns nor a recorded cancel can lead
      out of a terminal snapshot. */
  lemma ServedInOrder(scr: Scripts, job: Job, i: nat, j: nat)
    requires job.cancelRequested ==> Cancellable(scr, job.cancelAtPoll)
    requires NeverRegresses(scr, Own) && NeverRegresses(scr, AfterCancel)
    requires i < j && EndsJob(scr, Serve(scr, job, i)) && Serve(scr, job, j).turn.Some?
    ensures EndsJob(scr, Serve(scr, job, j))
  {
    var p := job.cancelAtPoll;
    if job.cancelRequested && j >= p {
      if i < p { NothingEndsBeforeACancel(scr, p, i); }
      ScriptAbsorbs(scr, AfterCancel, i - p, j - p);
    } else {
      ScriptAbsorbs(scr, Own, i, j);
    }
  }

  /** A cancel is only ever recorded where the job's own turns are live, so they were live before. */
  lemma NothingEndsBeforeACancel(scr: Scripts, p: nat, i: nat)
    requires Cancellable(scr, p) && i < p && NeverRegresses(scr, Own)
    ensures !EndsJob(scr, Snapshot(Own, i, scr.peek(Own, i)))
  {
    assert LiveAt(Positions(scr, Own), Verdicts(scr, Own), p);
    assert !TerminalAt(Positions(scr, Own), Verdicts(scr, Own), i);
  }

  lemma ScriptAbsorbs(scr: Scripts, which: Script, i: nat, j: nat)
    requires NeverRegresses(scr, which) && i < j
    requires EndsJob(scr, Snapshot(which, i, scr.peek(which, i))) && scr.peek(which, j).Some?
    ensures EndsJob(scr, Snapshot(which, j, scr.peek(which, j)))
  {
    assert TerminalAt(Positions(scr, which), Verdicts(scr, which), i);
    assert !LiveAt(Positions(scr, which), Verdicts(scr, which), j);
  }

  /** When neither script regresses, snapshots in poll order never leave a terminal one, even across a
      cancel recorded in the middle of the run. */
  lemma TerminalIsAbsorbingAcrossACancel(scr: Scripts, job: Job, es: seq<Event>, a: nat, b: nat)
    requires Fresh(job)
    requires NeverRegresses(scr, Own) && NeverRegresses(scr, AfterCancel)
    requires var s := Run(scr, job, es);
      && PollerAt(s, a) && PollerAt(s, b) && s.threads[a].poller.Answered? && s.threads[b].poller.Answered?
      && 0 <= s.threads[a].poller.index < s.threads[b].poller.index
      && EndsJob(scr, s.threads[a].poller.shot)
    ensures var shot := Run(scr, job, es).threads[b].poller.shot; shot.turn.Some? ==> EndsJob(scr, shot)
  {
    RunKeepsInv(scr, job, es);
    var s := Run(scr, job, es);
    assert PollerInv(scr, s, a, s.threads[a].poller) && PollerInv(scr, s, b, s.threads[b].poller);
    if s.threads[b].poller.shot.turn.Some? {
      ServedInOrder(scr, s.job, s.threads[a].poller.index, s.threads[b].poller.index);
    }
  }

  // ---- positions and contention ----

  ghost predicate NoPollInFlight(s: State) {
    forall id | PollerAt(s, id) :: s.threads[id].poller.Answered?
  }

  /** The recorded position never exceeds the lane's claims and equals them whenever no poll is
      between its claim and its advance; a cancel is never recorded past it. */
  lemma PositionTracksClaims(scr: Scripts, job: Job, es: seq<Event>)
    requires Fresh(job)
    ensures var s := Run(scr, job, es);
      && s.job.polls <= |s.owners|
      && (NoPollInFlight(s) ==> s.job.polls == |s.owners|)
      && (s.job.cancelRequested ==> s.job.cancelAtPoll <= s.job.polls)
  {
    RunKeepsInv(scr, job, es);
    var s := Run(scr, job, es);
    if NoPollInFlight(s) && |s.owners| > 0 {
      var last := s.owners[|s.owners| - 1];
      assert PollerAt(s, last) && PollerInv(scr, s, last, s.threads[last].poller);
    }
  }

  /** The positions one cancel read, in order: the job's at its lookup and at each compare-and-set. */
  function Reads(scr: Scripts, job: Job, es: seq<Event>, id: nat): seq<nat> {
    if es == [] then []
    else Reads(scr, job, es[..|es| - 1], id) + ReadAt(Run(scr, job, es[..|es| - 1]), es[|es| - 1], id)
  }

  function ReadAt(s: State, e: Event, id: nat): seq<nat> {
    if e.id == id && Enabled(s, e) && (e.ReadJob? || e.MarkJob?) then [s.job.polls] else []
  }

  predicate Rising(s: seq<nat>) { forall i, j | 0 <= i < j < |s| :: s[i] < s[j] }

  predicate ReadsInv(s: State, id: nat, positions: seq<nat>) {
    if !CancellerAt(s, id) then positions == []
    else match s.threads[id].canceller
      case Begun(_) => positions == []
      case Marking(_, seen, tries) =>
        && tries < MAX_CANCEL_TRIES && |positions| == tries + 1 && Rising(positions)
        && positions[tries] == seen.polls <= s.job.polls
      case Decided(Contended, _, _) => |positions| == MAX_CANCEL_TRIES + 1 && Rising(positions)
      case _ => true
  }

  lemma StepTracksReads(scr: Scripts, s: State, e: Event, id: nat, positions: seq<nat>)
    requires ReadsInv(s, id, positions)
    requires s.job.cancelRequested ==> s.job.cancelAtPoll <= s.job.polls
    ensures ReadsInv(Apply(scr, s, e), id, positions + ReadAt(s, e, id))
  {
    StepOnlyGrows(scr, s, e);
    if e.id == id && Enabled(s, e) && e.MarkJob? {
      var c := s.threads[id].canceller;
      if MarkReply(s.job, c.seen.polls).PositionMoved? {
        RisingAppend(positions, s.job.polls);
      }
    }
  }

  lemma RisingAppend(s: seq<nat>, x: nat)
    requires Rising(s) && (s != [] ==> s[|s| - 1] < x)
    ensures Rising(s + [x])
  {
  }

  lemma {:induction false} ReadsAreTracked(scr: Scripts, job: Job, es: seq<Event>, id: nat)
    requires Fresh(job)
    ensures ReadsInv(Run(scr, job, es), id, Reads(scr, job, es, id))
  {
    if es != [] {
      var before, e := es[..|es| - 1], es[|es| - 1];
      ReadsAreTracked(scr, job, before, id);
      RunKeepsInv(scr, job, before);
      StepTracksReads(scr, Run(scr, job, before), e, id, Reads(scr, job, before, id));
    }
  }

  /** A cancel that gives up as contended has itself witnessed eight strict rises of the position,
      between its lookup and its last compare-and-set. */
  lemma ContentionIsReal(scr: Scripts, job: Job, es: seq<Event>, id: nat)
    requires Fresh(job)
    requires var s := Run(scr, job, es);
      && CancellerAt(s, id) && s.threads[id].canceller.Decided?
      && s.threads[id].canceller.outcome.Contended?
    ensures var positions := Reads(scr, job, es, id); |positions| == MAX_CANCEL_TRIES + 1 && Rising(positions)
  {
    ReadsAreTracked(scr, job, es, id);
  }

  // ---- a job's scripts as the scenario declares them ----

  /** A job's own turns, the block its cancel script sits in, the poll route's fault key, and the
      profile's terminal vocabulary. */
  datatype Declared = Declared(turns: seq<Turn>, cancel: Option<seq<Turn>>, route: string, terminal: Turn -> bool)
  {
    function Turns(which: Script): seq<Turn> {
      match which
      case Own => turns
      case AfterCancel => if cancel.Some? then cancel.value else []
    }

    predicate Ends(which: Script, at: nat) { at < |Turns(which)| && terminal(Turns(which)[at]) }

    function Scripts(): Cancel.Scripts {
      Cancel.Scripts.Scripts((which, call) => Served(Turns(which), route, call), (which, at: nat) => Ends(which, at))
    }

    /** The terminal judgement handed to the load-time check: every turn's terminality is known. */
    function Known(which: Script): Judge { (at: nat) => Some(Ends(which, at)) }
  }

  /** An empty load-time report on a declared script is what the runs above rely on. */
  lemma CleanReportMeansNoRegression(d: Declared, which: Script, out: seq<Regression>)
    requires forall high: nat, n: nat | BoundsCallIndexes(d.Turns(which), high) && n >= high + 1 ::
               out == NaiveWalk(ScriptOf(d.Turns(which), d.route), d.Known(which), n)
    requires out == []
    ensures NeverRegresses(d.Scripts(), which)
  {
    NothingReportedMeansAbsorbing(d.Turns(which), d.route, d.Known(which), out);
    var scr := d.Scripts();
    var declared, judge := ScriptOf(d.Turns(which), d.route), d.Known(which);
    forall i: nat, j: nat | i < j && TerminalAt(Positions(scr, which), Verdicts(scr, which), i)
      ensures !LiveAt(Positions(scr, which), Verdicts(scr, which), j)
    {
      assert TerminalAt(declared, judge, i) && !LiveAt(declared, judge, j);
    }
  }
}
