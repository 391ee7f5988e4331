/** What becomes of an attempt a request claimed before it was rejected.  */
module Rejections {
  import opened Text
  import opened Faults
  import opened Connections
  import Engine
  import opened Executor
  import opened Handling

  /** What every engine answer promises: an attempt only ever comes with its index. */
  predicate Promised(d: Engine.Decision) { d.unknown || d.index < 0 ==> d.attempt.None? }

  lemma EngineAnswersArePromised(e: Engine.State, key: string)
    ensures Promised(Engine.Answer(e, key))
  {
  }

  /** The same request, had the engine handed out another attempt under the same index. */
  function Redrawn(v: Visit, other: Option<Attempt>): Visit { v.(next := v.next.(attempt := other)) }

  /** The same fields but for the attempt of a claimed decision. */
  predicate Alike(h: Held, k: Held) {
    && h.claimed == k.claimed && h.findings == k.findings && h.recordable == k.recordable
    && h.decision.(attempt := None) == k.decision.(attempt := None)
    && (!h.claimed ==> h == k)
  }

  lemma {:induction false} ActedAlike(v: Visit, other: Option<Attempt>, n: nat)
    requires n <= |v.actions|
    ensures Alike(Acted(v, n), Acted(Redrawn(v, other), n))
  {
    if n > 0 { ActedAlike(v, other, n - 1); }
  }

  lemma AnsweredAlike(v: Visit, other: Option<Attempt>)
    ensures Alike(Answered(v), Answered(Redrawn(v, other)))
    ensures Reply(v) == Reply(Redrawn(v, other)) && Eligible(v) == Eligible(Redrawn(v, other))
  {
    hide Acted, Fails;
    ActedAlike(v, other, |v.actions|);
  }

  lemma {:induction false} ActedDecision(v: Visit, n: nat)
    requires n <= |v.actions|
    ensures var h := Acted(v, n);
      h.decision == if h.claimed then v.next else Engine.Decision(None, -1, v.key, false, false)
  {
    if n > 0 { ActedDecision(v, n - 1); }
  }

  /** A request the fault plan does not apply to, whether rejected or opted out, leaves exactly the same
      entry, bytes and aborts whichever attempt its claim drew; the key and index it drew stay in the
      entry. */
  lemma RejectedRequestsIgnoreTheAttempt(w: World, v: Visit, other: Option<Attempt>)
    requires !Eligible(v) && v.next.index >= 0
    ensures Handled(w, v) == Handled(w, Redrawn(v, other)) && Settled(v) == Settled(Redrawn(v, other))
    ensures Applied(v).None?
    ensures Decided(v).claimed ==> Settled(v).decision == v.next.(attempt := None)
  {
    hide Acted, Answered, Eligible, Carried, OutcomeOf, Has;
    AnsweredAlike(v, other);
    AnsweredDecision(v);
    assert Decided(v) == Decided(Redrawn(v, other));
  }

  lemma AnsweredDecision(v: Visit)
    ensures var h := Answered(v);
      h.decision == if h.claimed then v.next else Engine.Decision(None, -1, v.key, false, false)
  {
    ActedDecision(v, |v.actions|);
  }

  /** The findings a list of actions raises, in order. */
  function RaisedBy(actions: seq<Action>): seq<Finding> {
    if actions == [] then []
    else
      var before, last := RaisedBy(actions[..|actions| - 1]), actions[|actions| - 1];
      if last.Raise? then before + [last.finding] else before
  }

  lemma {:induction false} ActedIs(v: Visit, n: nat)
    requires n <= |v.actions|
    ensures var h := Acted(v, n);
      && h.findings == v.early + RaisedBy(v.actions[..n])
      && (h.claimed <==> AskFault in v.actions[..n])
      && (h.recordable <==> KeepRecord in v.actions[..n])
  {
    if n > 0 {
      ActedIs(v, n - 1);
      assert v.actions[..n] == v.actions[..n - 1] + [v.actions[n - 1]];
      assert v.actions[..n][..n - 1] == v.actions[..n - 1];
    }
  }

  /** What the handler leaves behind is told by its actions: it has claimed if it asked, has something to
      keep if it said so, and has raised its findings after the earlier ones. A stream without a grammar is
      replaced by a refusal that says so. */
  lemma HandlersDecideByTheirActions(v: Visit)
    ensures
      var h, missing := Answered(v), v.resp.stream.Some? && v.resp.stream.value.grammar == "";
      && (h.claimed <==> AskFault in v.actions) && (h.recordable <==> KeepRecord in v.actions)
      && h.findings == v.early + RaisedBy(v.actions)
           + (if missing then [Finding(StreamGrammarMissing, true)] else [])
           + (if missing && v.refusal == [] then [Finding(RefusalEmptyBody, false)] else [])
      && Reply(v) == if missing then Response(500, v.refusal, None, "provider.stream_grammar_missing", false, None)
                     else v.resp
  {
    ActedIs(v, |v.actions|);
    assert v.actions[..|v.actions|] == v.actions;
  }

  /** The attempt a request is faulted with is the one its claim draws, if the reply is one faults apply to
      and nothing raised so far fails the request. */
  lemma DrawnIsTheClaim(v: Visit)
    requires Promised(v.next)
    ensures var served := v.resp.faultEligible && !(v.resp.stream.Some? && v.resp.stream.value.grammar == "")
                          && !Fails(v.policy, v.early + RaisedBy(v.actions));
      (Eligible(v) <==> served) && Drawn(v) == if served then v.next.attempt else None
    ensures KeepsNothing(v) <==> Drawn(v).Some? && Drawn(v).value.accepted && KeepRecord !in v.actions
  {
    hide Answered, Reply, Fails;
    AnsweredDecision(v);
    HandlersDecideByTheirActions(v);
    assert v.early + RaisedBy(v.actions) + [] + [] == v.early + RaisedBy(v.actions);
  }

  lemma {:induction false} PanickingActs(v: Visit, n: nat, k: nat)
    requires k <= n <= |v.actions|
    ensures Acted(Panicking(v, n), k) == Acted(v, k)
  {
    if k > 0 {
      PanickingActs(v, n, k - 1);
      assert Panicking(v, n).actions[k - 1] == v.actions[k - 1];
    }
  }

  /** What a handler's claims leave in the decision. */
  function ClaimedSoFar(v: Visit, n: nat): Engine.Decision
    requires n <= |v.actions|
  {
    if Acted(v, n).claimed then v.next else Engine.Decision(None, -1, v.key, false, false)
  }

  lemma PanickingSettles(v: Visit, n: nat)
    requires n <= |v.actions| && Promised(v.next)
    ensures var p := Panicking(v, n);
      && Drawn(p).None? && Applied(p).None? && Served(p) == p.resp
      && Decided(p).claimed == Acted(v, n).claimed
      && Settled(p).decision == ClaimedSoFar(v, n).(attempt := None)
  {
    hide Acted, Fails;
    var p := Panicking(v, n);
    PanickingActs(v, n, n);
    ActedDecision(v, n);
    assert Answered(p) == Act(p, Acted(p, n), p.actions[n]) by { LastAct(p, n); }
  }

  lemma LastAct(v: Visit, n: nat)
    requires n + 1 == |v.actions|
    ensures Acted(v, n + 1) == Act(v, Acted(v, n), v.actions[n])
  {
  }

  /** A handler that panics, before or after its claim, is answered for: the client that stays gets the
      profile's 500 whole, no fault touches it, and the one entry carries the key and the index the
      handler had claimed by then. */
  lemma PanickingHandlersAreAnsweredFor(w: World, v: Visit, n: nat) returns (out: Outcome)
    requires w.Patient() && n <= |v.actions| && Promised(v.next)
    ensures
      var t, d := Handled(w, Panicking(v, n)).trace, ClaimedSoFar(v, n);
      && t == (if Acted(v, n).claimed then [Claim] else []) + [Headers(500), Sent(HandlerBody, v.refusal), Append(out)]
      && out.faultKey == d.key && out.attemptIndex == d.index && out.status == 500
      && out.written == |v.refusal| && out.fault.Unfaulted? && !out.aborted
  {
    hide Acted, Decided, Settled, Applied, Served, Has;
    var p := Panicking(v, n);
    PanickingSettles(v, n);
    out := Planned(w, p).(written := |v.refusal|);
    var open := HeadersSent(Started(p), 500);
    assert w.client(open.met).None?;
    assert v.refusal[..|v.refusal|] == v.refusal;
    assert Handled(w, p).trace == Started(p).trace + [Headers(500)] + [Sent(HandlerBody, v.refusal)] + [Append(out)];
  }

  /** A scenario's own say over severities: a demoted code never fails a request, any other does under a
      strict scenario or when promoted, and otherwise as it was raised. */
  lemma PoliciesSettleSeverities(p: ValidationPolicy, f: Finding)
    ensures f.code in p.demote ==> !CountsAsError(Some(p), f)
    ensures f.code !in p.demote && (p.strict || f.code in p.promote) ==> CountsAsError(Some(p), f)
    ensures f.code !in p.demote && !p.strict && f.code !in p.promote ==> (CountsAsError(Some(p), f) <==> f.error)
    ensures CountsAsError(None, f) <==> f.error
  {
  }

  lemma FailsOneMore(policy: Option<ValidationPolicy>, fs: seq<Finding>, f: Finding)
    ensures Fails(policy, fs + [f]) <==> Fails(policy, fs) || CountsAsError(policy, f)
  {
    if Fails(policy, fs) {
      var g :| g in fs && CountsAsError(policy, g);
      assert g in fs + [f];
    }
    if CountsAsError(policy, f) { assert f in fs + [f]; }
  }

  /** An attempt is applied to a request that ends up failed exactly when it is marked accepted, the
      request kept nothing for it to keep, and the scenario does not demote the finding that says so. */
  lemma FailedRequestsAreFaultedExactlyWhen(v: Visit)
    requires Promised(v.next) && Applied(v).Some?
    ensures Fails(v.policy, Settled(v).findings)
       <==> KeepsNothing(v) && CountsAsError(v.policy, Finding(AcceptedUnreachable, true))
  {
    hide Acted, Answered, Reply, Fails, CountsAsError;
    AnsweredDecision(v);
    FailsOneMore(v.policy, Decided(v).findings, Finding(AcceptedUnreachable, true));
    assert Eligible(v) && Decided(v).findings == Answered(v).findings;
  }

  /** Such a request exists: an accepted close on a route that creates nothing. */
  lemma AnAcceptedAttemptFaultsAFailedRequest(w: World)
    ensures
      var a := PLAIN.(kind := CloseBeforeHeaders, accepted := true);
      var v := VisitFor(a, Response(200, "{}", None, "ok", true, None));
      && Applied(v) == Some(a) && Fails(v.policy, Settled(v).findings)
      && exists i | 0 <= i < |Handled(w, v).trace| :: Handled(w, v).trace[i] == Abort
  {
    hide Handled;
    var a := PLAIN.(kind := CloseBeforeHeaders, accepted := true);
    var v := VisitFor(a, Response(200, "{}", None, "ok", true, None));
    assert Settled(v).findings == [Finding(AcceptedUnreachable, true)];
    assert Finding(AcceptedUnreachable, true) in Settled(v).findings;
    ClosesAbort(w, v);
    assert Handled(w, v).trace[|Handled(w, v).trace| - 1] == Abort;
  }

  lemma ClosesAbort(w: World, v: Visit)
    requires Applied(v).Some? && Applied(v).value.EffectiveKind().CloseBeforeHeaders? && Applied(v).value.delay <= 0
    requires Served(v).stream.None?
    ensures var t := Handled(w, v).trace; |t| > 0 && t[|t| - 1] == Abort
  {
    hide Started, Decided, Settled, Applied, Served, Recorded, Has, FaultBody;
    var out := Planned(w, v);
    var entered := Recorded(Started(v), out);
    EntersOnce(Started(v), out);
    assert Handled(w, v) == Recorded(Emit(Emit(entered, Reset), Abort), out);
  }

  lemma EntersOnce(l: Log, out: Outcome)
    ensures var entered := Recorded(l, out);
      Recorded(Emit(Emit(entered, Reset), Abort), out) == Emit(Emit(entered, Reset), Abort)
  {
  }
}
