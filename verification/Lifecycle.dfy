/** What every request leaves behind, whatever its handler, attempt, stream and client do.  */
module Lifecycle {
  import opened Text
  import opened Faults
  import opened Connections
  import opened Streams
  import Engine
  import opened Executor
  import opened Handling

  // ---- traces in order ----

  /** No reset, abort or stream close precedes the entry; when strict, no byte does either. */
  predicate Proper(trace: seq<Event>, strict: bool) {
    trace == [] ||
    var before, e := trace[..|trace| - 1], trace[|trace| - 1];
    && Proper(before, strict)
    && (e.Reset? || e.Abort? || e.Close? || (strict && e.Sent?) ==> Appends(before) > 0)
  }

  /** Every entry carries this key and index. */
  predicate Named(trace: seq<Event>, d: Engine.Decision) {
    trace == [] ||
    var before, e := trace[..|trace| - 1], trace[|trace| - 1];
    && Named(before, d)
    && (e.Append? ==> e.outcome.faultKey == d.key && e.outcome.attemptIndex == d.index)
  }

  predicate Names(out: Outcome, d: Engine.Decision) { out.faultKey == d.key && out.attemptIndex == d.index }

  /** The invariant of a log under way. */
  predicate Tidy(l: Log, strict: bool, claims: nat, d: Engine.Decision) {
    && Appends(l.trace) == (if l.appended then 1 else 0)
    && Closes(l.trace) == (if l.closed then 1 else 0)
    && Claims(l.trace) == claims
    && Proper(l.trace, strict)
    && Named(l.trace, d)
  }

  lemma EmitTidy(l: Log, e: Event, strict: bool, claims: nat, d: Engine.Decision)
    requires Tidy(l, strict, claims, d) && !e.Append? && !e.Close? && !e.Claim?
    requires e.Reset? || e.Abort? || (strict && e.Sent?) ==> l.appended
    ensures Tidy(Emit(l, e), strict, claims, d)
  {
    EmitReads(l.trace, e);
    assert (l.trace + [e])[..|l.trace|] == l.trace;
  }

  lemma RecordedTidy(l: Log, out: Outcome, strict: bool, claims: nat, d: Engine.Decision)
    requires Tidy(l, strict, claims, d) && Names(out, d)
    ensures Tidy(Recorded(l, out), strict, claims, d) && Recorded(l, out).appended
    ensures Recorded(l, out).closed == l.closed
  {
    EmitReads(l.trace, Append(out));
    assert (l.trace + [Append(out)])[..|l.trace|] == l.trace;
  }

  lemma ClosedTidy(l: Log, c: StreamClose, strict: bool, claims: nat, d: Engine.Decision)
    requires Tidy(l, strict, claims, d) && l.appended
    ensures Tidy(Closed(l, c), strict, claims, d) && Closed(l, c).closed && Closed(l, c).appended
  {
    EmitReads(l.trace, Close(c));
    assert (l.trace + [Close(c)])[..|l.trace|] == l.trace;
  }

  lemma WroteTidy(w: World, l: Log, o: Origin, bytes: Bytes, strict: bool, claims: nat, d: Engine.Decision)
    requires Tidy(l, strict, claims, d) && (strict ==> l.appended)
    ensures var after := Wrote(w, l, o, bytes);
      Tidy(after, strict, claims, d) && after.appended == l.appended && after.closed == l.closed
  {
    EmitTidy(l, Sent(o, bytes[..Accepted(w, l, bytes)]), strict, claims, d);
    assert bytes == [] ==> bytes[..0] == [];
  }

  // ---- the writers keep it ----

  lemma FinishTidy(l: Log, written: nat, sent: nat, state: StreamState, reset: bool, claims: nat, d: Engine.Decision)
    requires Tidy(l, true, claims, d) && l.appended
    ensures var done := Finish(l, written, sent, state);
      && Tidy(done.log, true, claims, d) && done.log.appended && done.log.closed
      && Tidy(Aborting(done, reset).log, true, claims, d)
      && Aborting(done, reset).log.appended && Aborting(done, reset).log.closed
  {
    hide Tidy;
    var c := StreamClose(written, sent, state);
    ClosedTidy(l, c, true, claims, d);
    var done := Closed(l, c);
    EmitTidy(done, Reset, true, claims, d);
    EmitTidy(done, Abort, true, claims, d);
    EmitTidy(Emit(done, Reset), Abort, true, claims, d);
  }

  lemma {:induction false} StreamTidy(
      w: World, l: Log, p: StreamPlan, i: nat, written: nat, sent: nat, claims: nat, d: Engine.Decision)
    requires Tidy(l, true, claims, d) && l.appended && p.Sound() && i <= |p.chunks|
    ensures var done := StreamFrom(w, l, p, i, written, sent);
      Tidy(done.log, true, claims, d) && done.log.appended && done.log.closed
    decreases |p.chunks| - i
  {
    hide Tidy, Wrote, Accepted, WriteFails, Aborting, Finish;
    if i == |p.chunks| {
      SentinelTidy(w, l, p, written, sent, claims, d);
    } else if p.disconnectAt == i {
      FinishTidy(l, written, sent, Aborted, p.reset, claims, d);
    } else {
      var l' := Slept(w, l, p.PaceOf(i));
      TidyElsewhere(l, l', true, claims, d);
      FinishTidy(l', written, sent, ClientGone, false, claims, d);
      var b := if p.truncateAt == i then p.chunks[i].bytes[..p.truncateBytes] else p.chunks[i].bytes;
      var n := Accepted(w, l', b);
      var after := Wrote(w, l', Frames, b);
      WroteTidy(w, l', Frames, b, true, claims, d);
      FinishTidy(after, written + n, sent, ClientGone, false, claims, d);
      FinishTidy(after, written + n, sent, Aborted, p.reset, claims, d);
      StreamTidy(w, after, p, i + 1, written + n, sent + 1, claims, d);
    }
  }

  lemma TidyElsewhere(l: Log, l': Log, strict: bool, claims: nat, d: Engine.Decision)
    requires Tidy(l, strict, claims, d)
    requires l'.trace == l.trace && l'.appended == l.appended && l'.closed == l.closed
    ensures Tidy(l', strict, claims, d)
  {
  }

  lemma SentinelTidy(w: World, l: Log, p: StreamPlan, written: nat, sent: nat, claims: nat, d: Engine.Decision)
    requires Tidy(l, true, claims, d) && l.appended
    ensures var done := SentinelFrom(w, l, p, written, sent);
      Tidy(done.log, true, claims, d) && done.log.appended && done.log.closed
  {
    hide Tidy, Wrote, Accepted, WriteFails, Finish;
    var l' := Slept(w, l, p.sentinelPace);
    TidyElsewhere(l, l', true, claims, d);
    FinishTidy(l, written, sent, Completed, false, claims, d);
    FinishTidy(l', written, sent, ClientGone, false, claims, d);
    var n := Accepted(w, l', p.sentinel);
    WroteTidy(w, l', Frames, p.sentinel, true, claims, d);
    FinishTidy(Wrote(w, l', Frames, p.sentinel), written + n, sent, ClientGone, false, claims, d);
    FinishTidy(Wrote(w, l', Frames, p.sentinel), written + n, sent, Completed, false, claims, d);
  }

  lemma HeadersTidy(l: Log, status: int, strict: bool, claims: nat, d: Engine.Decision)
    requires Tidy(l, strict, claims, d)
    ensures var open := HeadersSent(l, status);
      Tidy(open, strict, claims, d) && open.appended == l.appended && open.closed == l.closed
  {
    EmitTidy(l, Headers(status), strict, claims, d);
    TidyElsewhere(Emit(l, Headers(status)), HeadersSent(l, status), strict, claims, d);
  }

  lemma {:induction false} PadTidy(w: World, l: Log, padding: nat, claims: nat, d: Engine.Decision)
    requires Tidy(l, false, claims, d)
    ensures var end := PadFrom(w, l, padding);
      Tidy(end, false, claims, d) && end.appended == l.appended && end.closed == l.closed
    decreases padding
  {
    hide Tidy, Wrote, Accepted, WriteFails;
    if padding > 0 {
      var chunk := Spaces(if padding < PADDING_CHUNK then padding else PADDING_CHUNK);
      WroteTidy(w, l, Padding, chunk, false, claims, d);
      var n := Accepted(w, l, chunk);
      if !WriteFails(w, l, chunk) && n != 0 { PadTidy(w, Wrote(w, l, Padding, chunk), padding - n, claims, d); }
    }
  }

  /** Attempts that destroy a connection that does not stream. */
  predicate Destroys(a: Option<Attempt>) {
    a.Some? && (a.value.EffectiveKind().CloseBeforeHeaders? || a.value.EffectiveKind().TruncateBody?)
  }

  lemma ExecutedTidy(
      w: World, l: Log, a: Option<Attempt>, resp: Response, out: Outcome, claims: nat, d: Engine.Decision)
    requires Tidy(l, Destroys(a), claims, d) && Names(out, d) && !l.closed
    requires Destroys(a) && !DefersAbort(a) ==> l.appended
    ensures var r := Executed(w, l, a, resp, out);
      Tidy(r.log, Destroys(a), claims, d) && !r.log.closed && Names(r.out, d)
  {
    hide Tidy, Wrote, Accepted, WriteFails, Recorded, Slept, Gone, HeadersSent, FaultBody, PadFrom, Wire;
    if a.Some? && a.value.EffectiveKind().CloseBeforeHeaders? {
      EmitTidy(l, Reset, true, claims, d);
      EmitTidy(Emit(l, Reset), Abort, true, claims, d);
    } else {
      var strict := Destroys(a);
      var open := WithHeaders(l, a, resp);
      HeadersTidy(l, StatusOr(StatusFor(a, resp.status)), strict, claims, d);
      if a.None? {
        WroteTidy(w, open, HandlerBody, resp.body, strict, claims, d);
      } else {
        HangTidy(w, open, a, resp, out, claims, d);
      }
    }
  }

  lemma HangTidy(
      w: World, open: Log, a: Option<Attempt>, resp: Response, out: Outcome, claims: nat, d: Engine.Decision)
    requires a.Some? && !a.value.EffectiveKind().CloseBeforeHeaders?
    requires Tidy(open, Destroys(a), claims, d) && Names(out, d) && !open.closed
    requires Destroys(a) && !DefersAbort(a) ==> open.appended
    ensures
      var hung := Slept(w, open, AfterHeaders(a));
      var body := FaultBody(w, a.value, resp);
      var strict := Destroys(a);
      && Tidy(hung, strict, claims, d) && !hung.closed
      && (!strict ==>
            var whole := Wrote(w, hung, body.origin, body.bytes);
            && Tidy(whole, strict, claims, d) && !whole.closed
            && Tidy(PadFrom(w, whole, Excess(a.value, body.bytes)), strict, claims, d)
            && !PadFrom(w, whole, Excess(a.value, body.bytes)).closed)
      && (strict ==>
            var cut := Wrote(w, Recorded(hung, out), body.origin, body.bytes[..Truncation(a.value, |body.bytes|)]);
            var end := Emit(if a.value.reset then Emit(cut, Reset) else cut, Abort);
            Tidy(end, strict, claims, d) && !end.closed)
  {
    hide Tidy, Wrote, Accepted, WriteFails, Recorded, FaultBody, PadFrom;
    var hung := Slept(w, open, AfterHeaders(a));
    var body := FaultBody(w, a.value, resp);
    TidyElsewhere(open, hung, Destroys(a), claims, d);
    if Destroys(a) {
      var noted := Recorded(hung, out);
      RecordedTidy(hung, out, true, claims, d);
      var part := body.bytes[..Truncation(a.value, |body.bytes|)];
      WroteTidy(w, noted, body.origin, part, true, claims, d);
      var cut := Wrote(w, noted, body.origin, part);
      EmitTidy(cut, Reset, true, claims, d);
      EmitTidy(cut, Abort, true, claims, d);
      EmitTidy(Emit(cut, Reset), Abort, true, claims, d);
    } else {
      WroteTidy(w, hung, body.origin, body.bytes, false, claims, d);
      PadTidy(w, Wrote(w, hung, body.origin, body.bytes), Excess(a.value, body.bytes), claims, d);
    }
  }

  // ---- the whole request ----

  lemma EndedTidy(l: Log, out: Outcome, resp: Response, strict: bool, claims: nat, d: Engine.Decision)
    requires Tidy(l, strict, claims, d) && Names(out, d) && (l.closed ==> resp.stream.Some?)
    ensures var end := Ended(l, out, resp);
      Tidy(end, strict, claims, d) && end.appended && end.closed == resp.stream.Some?
  {
    hide Tidy, Recorded, Closed;
    RecordedTidy(l, out, strict, claims, d);
    ClosedTidy(Recorded(l, out), StreamClose(0, 0, ClientGone), strict, claims, d);
  }

  /** The attempt and response are ones Handle can be left with. */
  predicate Fitted(a: Option<Attempt>, resp: Response, out: Outcome) {
    && (Destroys(a) ==> resp.stream.None?)
    && (resp.stream.None? ==> (out.aborted <==> Destroys(a)))
  }

  predicate Strict(a: Option<Attempt>, resp: Response) { Destroys(a) || resp.stream.Some? }

  lemma DispatchedTidy(
      w: World, l: Log, a: Option<Attempt>, resp: Response, out: Outcome, claims: nat, d: Engine.Decision)
    requires Fitted(a, resp, out) && Names(out, d)
    requires Tidy(l, Strict(a, resp), claims, d) && !l.closed && (resp.stream.Some? ==> l.appended)
    ensures var end := Dispatched(w, l, a, resp, out);
      Tidy(end, Strict(a, resp), claims, d) && end.appended && end.closed == resp.stream.Some?
  {
    hide Tidy, Recorded, Executed, Ended, HeadersSent;
    var strict := Strict(a, resp);
    var entered := if out.aborted && resp.stream.None? && !DefersAbort(a) then Recorded(l, out) else l;
    RecordedTidy(l, out, strict, claims, d);
    var r := Performed(w, entered, a, resp, out);
    if resp.stream.Some? {
      var code := StatusOr(StatusFor(a, resp.status));
      HeadersTidy(l, code, true, claims, d);
      StreamTidy(w, HeadersSent(l, code), PlanStream(a, resp.stream.value), 0, 0, 0, claims, d);
    } else {
      ExecutedTidy(w, entered, a, resp, out, claims, d);
    }
    EndedTidy(r.log, r.out, resp, strict, claims, d);
  }

  lemma CarriedTidy(
      w: World, l: Log, a: Option<Attempt>, resp: Response, out: Outcome, claims: nat, d: Engine.Decision)
    requires Fitted(a, resp, out) && Names(out, d)
    requires Tidy(l, Strict(a, resp), claims, d) && !l.closed
    ensures var end := Carried(w, l, a, resp, out);
      Tidy(end, Strict(a, resp), claims, d) && end.appended && end.closed == resp.stream.Some?
  {
    hide Tidy, Recorded, Ended, Dispatched;
    var strict := Strict(a, resp);
    var entered := if resp.stream.Some? then Recorded(l, out) else l;
    RecordedTidy(l, out, strict, claims, d);
    var waited := Slept(w, entered, PreDelay(a));
    TidyElsewhere(entered, waited, strict, claims, d);
    if Gone(w, entered, PreDelay(a)) {
      EndedTidy(waited, out.(aborted := out.aborted || resp.stream.None?, written := 0), resp, strict, claims, d);
    } else {
      DispatchedTidy(w, waited, a, resp, out, claims, d);
    }
  }

  lemma VisitsFit(w: World, v: Visit)
    ensures Fitted(Applied(v), Served(v), Planned(w, v)) && Names(Planned(w, v), Settled(v).decision)
  {
    hide Decided, Reply, Eligible, FaultBody, PlannedOutcome, Has;
  }

  lemma ProperMeans(trace: seq<Event>, strict: bool, i: nat)
    requires Proper(trace, strict) && i < |trace|
    requires trace[i].Reset? || trace[i].Abort? || trace[i].Close? || (strict && trace[i].Sent?)
    ensures exists j | 0 <= j < i :: trace[j].Append?
    decreases |trace|
  {
    var n := |trace| - 1;
    if i < n {
      ProperMeans(trace[..n], strict, i);
      var j :| 0 <= j < i && trace[..n][j].Append?;
      assert trace[j].Append?;
    } else {
      var j := FirstAppend(trace[..n]);
      assert trace[j].Append?;
    }
  }

  lemma {:induction false} FirstAppend(trace: seq<Event>) returns (j: nat)
    requires Appends(trace) > 0
    ensures j < |trace| && trace[j].Append?
    decreases |trace|
  {
    var n := |trace| - 1;
    if trace[n].Append? { j := n; } else { j := FirstAppend(trace[..n]); }
  }

  lemma {:induction false} NamedMeans(trace: seq<Event>, d: Engine.Decision, i: nat)
    requires Named(trace, d) && i < |trace| && trace[i].Append?
    ensures Names(trace[i].outcome, d)
    decreases |trace|
  {
    if i < |trace| - 1 { NamedMeans(trace[..|trace| - 1], d, i); }
  }

  lemma HandledTidy(w: World, v: Visit)
    ensures var end := Handled(w, v);
      && Tidy(end, Strict(Applied(v), Served(v)), if Decided(v).claimed then 1 else 0, Settled(v).decision)
      && end.appended && end.closed == Served(v).stream.Some?
  {
    hide Decided, Applied, Served, Planned, Settled, Carried, Fitted, Strict;
    VisitsFit(w, v);
    var strict, d := Strict(Applied(v), Served(v)), Settled(v).decision;
    assert START.trace == [] && Tidy(START, strict, 0, d);
    EmitReads([], Claim);
    assert [Claim][..0] == [] && [] + [Claim] == [Claim];
    assert Tidy(Started(v), strict, if Decided(v).claimed then 1 else 0, d);
    CarriedTidy(w, Started(v), Applied(v), Served(v), Planned(w, v), if Decided(v).claimed then 1 else 0, d);
  }

  /** On every path, whatever the handler, the attempt, the stream and the client do: exactly one entry,
      carrying the key and index the request drew on; at most one claim; a stream closed exactly once,
      anything else never; and the entry stands before any reset, abort or close. Before any byte too,
      when a stream or a connection-destroying attempt is being served. */
  lemma EveryRequestIsJournaledOnce(w: World, v: Visit)
    ensures
      var t := Handled(w, v).trace;
      && Appends(t) == 1
      && Claims(t) <= 1 && (Claims(t) == 1 <==> Decided(v).claimed)
      && Closes(t) == (if Served(v).stream.Some? then 1 else 0)
      && (forall i | 0 <= i < |t| && t[i].Append? :: Names(t[i].outcome, Settled(v).decision))
      && (forall i | 0 <= i < |t| && (t[i].Reset? || t[i].Abort? || t[i].Close?) ::
            exists j | 0 <= j < i :: t[j].Append?)
      && (Served(v).stream.Some? || Destroys(Applied(v)) ==>
            forall i | 0 <= i < |t| && t[i].Sent? :: exists j | 0 <= j < i :: t[j].Append?)
  {
    hide Handled, Served, Applied, Decided, Settled;
    HandledTidy(w, v);
    var t, strict := Handled(w, v).trace, Strict(Applied(v), Served(v));
    forall i | 0 <= i < |t| && t[i].Append? ensures Names(t[i].outcome, Settled(v).decision) {
      NamedMeans(t, Settled(v).decision, i);
    }
    forall i | 0 <= i < |t| && (t[i].Reset? || t[i].Abort? || t[i].Close? || (strict && t[i].Sent?))
      ensures exists j | 0 <= j < i :: t[j].Append?
    {
      ProperMeans(t, strict, i);
    }
  }
}
