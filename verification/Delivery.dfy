/** What the client of a request that does not stream ends up holding, against what was predicted
    before anything was rendered.  */
module Delivery {
  import opened Text
  import opened Faults
  import opened Connections
  import opened Streams
  import Engine
  import opened Executor
  import opened Handling
  import Entries
  import Minting
  import Rejections

  /** The part of a trace the client sees. */
  function Seen(trace: seq<Event>): seq<Event> {
    if trace == [] then []
    else
      var before, e := Seen(trace[..|trace| - 1]), trace[|trace| - 1];
      if e.Append? || e.Close? || e.Claim? then before else before + [e]
  }

  predicate Readable(status: int) { FinalStatus(status) < 400 && !WritesNoBody(FinalStatus(status)) }

  /** A complete response, not an error, whose body is the handler's, padded or not. */
  predicate Delivered(seen: seq<Event>) {
    && |seen| >= 2
    && seen[0].Headers? && Readable(seen[0].status)
    && seen[1].Sent? && seen[1].origin.HandlerBody?
    && forall i | 2 <= i < |seen| :: seen[i].Sent? && seen[i].origin.Padding?
  }

  lemma SeenEmit(trace: seq<Event>, e: Event)
    ensures Seen(trace + [e]) == Seen(trace) + if e.Append? || e.Close? || e.Claim? then [] else [e]
  {
    assert (trace + [e])[..|trace|] == trace;
  }

  // ---- what a client that stays sees ----

  lemma SeenWrote(w: World, l: Log, o: Origin, bytes: Bytes)
    requires w.Patient()
    ensures Seen(Wrote(w, l, o, bytes).trace)
         == Seen(l.trace) + if bytes != [] && WritesNoBody(l.status) then [] else [Sent(o, bytes)]
    ensures Wrote(w, l, o, bytes).status == l.status
  {
    var n := Accepted(w, l, bytes);
    SeenEmit(l.trace, Sent(o, bytes[..n]));
    if !WritesNoBody(l.status) {
      assert w.client(l.met).None?;
      assert bytes[..n] == bytes;
    }
  }

  ghost predicate Pads(seen: seq<Event>, n: nat) {
    (forall e | e in seen :: e.Sent? && e.origin.Padding?) && Wire(seen) == Spaces(n)
  }

  lemma {:induction false} WireAppend(a: seq<Event>, b: seq<Event>)
    ensures Wire(a + b) == Wire(a) + Wire(b)
    decreases |b|
  {
    if b == [] {
      assert a + b == a;
    } else {
      var n := |b| - 1;
      WireAppend(a, b[..n]);
      assert (a + b)[..|a + b| - 1] == a + b[..n];
    }
  }

  lemma {:induction false} SeenPad(w: World, l: Log, padding: nat) returns (pads: seq<Event>)
    requires w.Patient()
    ensures Seen(PadFrom(w, l, padding).trace) == Seen(l.trace) + pads
    ensures !WritesNoBody(l.status) ==> Pads(pads, padding)
    ensures WritesNoBody(l.status) ==> pads == []
    decreases padding
  {
    hide Seen, Wire;
    WireOfNone();
    assert Spaces(0) == [];
    if padding == 0 || WritesNoBody(l.status) {
      pads := [];
    } else {
      var chunk := Spaces(if padding < PADDING_CHUNK then padding else PADDING_CHUNK);
      SeenWrote(w, l, Padding, chunk);
      var rest := SeenPad(w, Wrote(w, l, Padding, chunk), padding - |chunk|);
      pads := [Sent(Padding, chunk)] + rest;
      WireAppend([Sent(Padding, chunk)], rest);
      WireOfOne(Sent(Padding, chunk));
      assert chunk + Spaces(padding - |chunk|) == Spaces(padding);
    }
  }

  lemma WireOfNone()
    ensures Wire([]) == []
  {
  }

  lemma WireOfOne(e: Event)
    requires e.Sent?
    ensures Wire([e]) == e.bytes
  {
    assert [e][..0] == [] && [] + e.bytes == e.bytes;
  }

  predicate WritesBody(kind: Kind) {
    kind.Unset? || kind.Status? || kind.WrongContentType? || kind.ExtraFields? || kind.OversizedBody? || kind.Unknown?
  }

  /** Whether the executor leaves the client with the handler's body. */
  predicate Receives(a: Option<Attempt>, resp: Response) {
    && Readable(StatusOr(StatusFor(a, resp.status)))
    && (a.Some? ==> WritesBody(a.value.EffectiveKind()) && BaseBody(a.value, resp).origin.HandlerBody?)
  }

  /** The handler's bytes, with an attempt's fields merged in where they can be. */
  function Kept(w: World, a: Option<Attempt>, resp: Response): Bytes {
    if a.None? then resp.body else Merged(w, a.value, Body(HandlerBody, resp.body)).bytes
  }

  function Excessive(a: Option<Attempt>, body: Bytes): nat {
    if a.Some? && a.value.EffectiveKind().OversizedBody? then Excess(a.value, body) else 0
  }

  function SentOne(l: Log, o: Origin, bytes: Bytes): seq<Event> {
    if bytes != [] && WritesNoBody(l.status) then [] else [Sent(o, bytes)]
  }

  lemma NoPads()
    ensures Pads([], 0)
  {
    WireOfNone();
    assert Spaces(0) == [];
  }

  /** The shape of a delivered body: the handler's write, then padding. */
  predicate Carries(tail: seq<Event>) {
    && |tail| >= 1 && tail[0].Sent? && tail[0].origin.HandlerBody?
    && forall i | 1 <= i < |tail| :: tail[i].Sent? && tail[i].origin.Padding?
  }

  lemma HandlersOwn(w: World, a: Attempt, resp: Response)
    requires WritesBody(a.EffectiveKind())
    ensures FaultBody(w, a, resp).origin == BaseBody(a, resp).origin
    ensures BaseBody(a, resp).origin.HandlerBody? ==> FaultBody(w, a, resp).bytes == Kept(w, Some(a), resp)
  {
  }

  lemma SeenTruncated(w: World, l: Log, a: Attempt, resp: Response, out: Outcome) returns (tail: seq<Event>)
    requires w.Patient() && a.EffectiveKind().TruncateBody?
    ensures Seen(Executed(w, l, Some(a), resp, out).log.trace) == Seen(WithHeaders(l, Some(a), resp).trace) + tail
    ensures !Carries(tail)
  {
    hide Seen, Wrote, FaultBody;
    var hung := Slept(w, WithHeaders(l, Some(a), resp), a.delayAfterHeaders);
    SeenEmit(hung.trace, Append(out));
    var body := FaultBody(w, a, resp);
    var part := body.bytes[..Truncation(a, |body.bytes|)];
    var cut := Wrote(w, Recorded(hung, out), body.origin, part);
    SeenWrote(w, Recorded(hung, out), body.origin, part);
    SeenEmit(cut.trace, Reset);
    SeenEmit(cut.trace, Abort);
    SeenEmit(cut.trace + [Reset], Abort);
    tail := SentOne(hung, body.origin, part) + (if a.reset then [Reset] else []) + [Abort];
    assert tail[|tail| - 1] == Abort;
  }

  /** A body, and its padding if it is to be oversized. */
  lemma SeenBody(w: World, l: Log, b: Body, oversized: bool, excess: nat) returns (tail: seq<Event>)
    requires w.Patient()
    ensures
      var whole := Wrote(w, l, b.origin, b.bytes);
      var end := if oversized && !WriteFails(w, l, b.bytes) then PadFrom(w, whole, excess) else whole;
      Seen(end.trace) == Seen(l.trace) + tail
    ensures !WritesNoBody(l.status) ==>
      && (Carries(tail) <==> b.origin.HandlerBody?)
      && (Carries(tail) ==> tail[0].bytes == b.bytes && Pads(tail[1..], if oversized then excess else 0))
  {
    hide Seen, Wire, Wrote, PadFrom, Pads;
    SeenWrote(w, l, b.origin, b.bytes);
    var sent := SentOne(l, b.origin, b.bytes);
    var pads: seq<Event> := [];
    WireOfNone();
    NoPads();
    if oversized && !WriteFails(w, l, b.bytes) {
      pads := SeenPad(w, Wrote(w, l, b.origin, b.bytes), excess);
      PadsArePads(pads, excess);
    }
    tail := sent + pads;
    if !WritesNoBody(l.status) {
      assert w.client(l.met).None? && sent == [Sent(b.origin, b.bytes)];
      assert tail[1..] == pads;
      assert forall i | 1 <= i < |tail| :: tail[i] == pads[i - 1];
    }
  }

  /** After the headers of a faulted response. */
  lemma SeenFaulted(w: World, l: Log, a: Attempt, resp: Response, out: Outcome) returns (tail: seq<Event>)
    requires w.Patient() && !a.EffectiveKind().IsStream() && !a.EffectiveKind().CloseBeforeHeaders?
    ensures Seen(Executed(w, l, Some(a), resp, out).log.trace) == Seen(WithHeaders(l, Some(a), resp).trace) + tail
    ensures !WritesNoBody(WithHeaders(l, Some(a), resp).status) ==>
      && (Carries(tail) <==> WritesBody(a.EffectiveKind()) && BaseBody(a, resp).origin.HandlerBody?)
      && (Carries(tail) ==>
           tail[0].bytes == Kept(w, Some(a), resp) && Pads(tail[1..], Excessive(Some(a), Kept(w, Some(a), resp))))
  {
    hide Seen, Wire, Wrote, WriteFails, PadFrom, BaseBody, Kept, Pads, Carries, FaultBody;
    var kind := a.EffectiveKind();
    if kind.TruncateBody? {
      tail := SeenTruncated(w, l, a, resp, out);
    } else if kind.EmptyBody? {
      tail := [];
      NothingCarries();
    } else {
      var hung := Slept(w, WithHeaders(l, Some(a), resp), a.delayAfterHeaders);
      var body := FaultBody(w, a, resp);
      tail := SeenBody(w, hung, body, kind.OversizedBody?, Excess(a, body.bytes));
      if WritesBody(kind) { HandlersOwn(w, a, resp); } else { RawIsNotTheHandlers(w, a, resp); }
    }
  }

  lemma NothingCarries()
    ensures !Carries([])
  {
  }

  lemma RawIsNotTheHandlers(w: World, a: Attempt, resp: Response)
    requires a.EffectiveKind().InvalidJSON?
    ensures FaultBody(w, a, resp).origin.RawBody?
  {
  }

  lemma PadsArePads(pads: seq<Event>, n: nat)
    ensures Pads(pads, n) ==> forall i | 0 <= i < |pads| :: pads[i].Sent? && pads[i].origin.Padding?
  {
  }

  /** What a client that stays sees of a response that does not stream. */
  lemma SeenExecuted(w: World, l: Log, a: Option<Attempt>, resp: Response, out: Outcome) returns (seen: seq<Event>)
    requires w.Patient() && (a.Some? ==> !a.value.EffectiveKind().IsStream())
    ensures Seen(Executed(w, l, a, resp, out).log.trace) == Seen(l.trace) + seen
    ensures a.None? || !a.value.EffectiveKind().CloseBeforeHeaders? ==>
      |seen| > 0 && seen[0] == Headers(StatusOr(StatusFor(a, resp.status)))
    ensures Delivered(seen) <==> Receives(a, resp)
    ensures Delivered(seen) ==>
      seen[1].bytes == Kept(w, a, resp) && Pads(seen[2..], Excessive(a, Kept(w, a, resp)))
  {
    hide Seen, Wire, Wrote, Accepted, WriteFails, PadFrom, Recorded, Merged, BaseBody;
    var code := StatusOr(StatusFor(a, resp.status));
    var headers, open := [Headers(code)], WithHeaders(l, a, resp);
    SeenEmit(l.trace, Headers(code));
    if a.None? {
      SeenWrote(w, open, HandlerBody, resp.body);
      seen := headers + SentOne(open, HandlerBody, resp.body);
      NoPads();
      assert Carries(SentOne(open, HandlerBody, resp.body)) ==> seen[2..] == [];
    } else if a.value.EffectiveKind().CloseBeforeHeaders? {
      SeenEmit(l.trace, Reset);
      SeenEmit(l.trace + [Reset], Abort);
      seen := [Reset] + [Abort];
    } else {
      var tail := SeenFaulted(w, l, a.value, resp, out);
      seen := headers + tail;
      if Delivered(seen) { assert seen[2..] == tail[1..]; }
    }
  }


  // ---- the whole request ----

  lemma SeenQuietly(l: Log, out: Outcome, c: StreamClose)
    ensures Seen(Recorded(l, out).trace) == Seen(l.trace) == Seen(Closed(l, c).trace)
  {
    SeenEmit(l.trace, Append(out));
    SeenEmit(l.trace, Close(c));
  }

  lemma SeenHandled(w: World, v: Visit)
    requires w.Patient() && Served(v).stream.None?
    ensures
      var seen := Seen(Handled(w, v).trace);
      && (Applied(v).None? || !Applied(v).value.EffectiveKind().CloseBeforeHeaders? ==>
            |seen| > 0 && seen[0] == Headers(StatusOr(StatusFor(Applied(v), Served(v).status))))
      && (Delivered(seen) <==> Receives(Applied(v), Served(v)))
      && (Delivered(seen) ==>
            var kept := Kept(w, Applied(v), Served(v));
            seen[1].bytes == kept && Pads(seen[2..], Excessive(Applied(v), kept)))
  {
    hide Seen, Served, Planned, Executed, Recorded, Decided, Delivered, Receives, Pads, Kept, Excessive;
    AppliedIsNotStreaming(v);
    var a, resp, out := Applied(v), Served(v), Planned(w, v);
    SeenStarted(v);
    var waited := Slept(w, Started(v), PreDelay(a));
    var entered := if out.aborted && resp.stream.None? && !DefersAbort(a) then Recorded(waited, out) else waited;
    SeenQuietly(waited, out, StreamClose(0, 0, ClientGone));
    var seen := SeenExecuted(w, entered, a, resp, out);
    var r := Executed(w, entered, a, resp, out);
    SeenQuietly(r.log, r.out, StreamClose(0, 0, ClientGone));
    assert Seen(Handled(w, v).trace) == [] + seen == seen;
  }

  lemma SeenStarted(v: Visit)
    ensures Seen(Started(v).trace) == []
  {
    SeenEmit([], Claim);
  }

  lemma AppliedIsNotStreaming(v: Visit)
    requires Served(v).stream.None?
    ensures Applied(v).Some? ==> !Applied(v).value.EffectiveKind().IsStream()
  {
  }

  /** An attempt of no kind that carries a status of its own: the client is sent it, the entry is not. */
  predicate StatusUnreported(a: Option<Attempt>, resp: Response) {
    a.Some? && a.value.EffectiveKind().Unset? && a.value.status > 0 && a.value.status != StatusOr(resp.status)
  }

  /** The status an entry reports is the one its client was sent, except exactly for a kindless attempt
      that changes it. */
  lemma ReportedStatusIsSent(w: World, v: Visit)
    requires w.Patient() && Served(v).stream.None?
    requires Applied(v).Some? ==> !Applied(v).value.EffectiveKind().CloseBeforeHeaders?
    ensures
      var seen, entry := Seen(Handled(w, v).trace), Entries.EntryOf(Handled(w, v).trace);
      && entry.Some? && |seen| > 0 && seen[0].Headers?
      && (seen[0].status == StatusOr(entry.value.status) <==> !StatusUnreported(Applied(v), Served(v)))
  {
    hide Seen, Handled, Applied, Served, Delivered, Receives, Entries.EntryOf;
    SeenHandled(w, v);
    Entries.OrdinaryEntriesTellTheTruth(w, v);
    PlannedStatus(w, v);
  }

  lemma PlannedStatus(w: World, v: Visit)
    requires Applied(v).Some? ==> !Applied(v).value.EffectiveKind().CloseBeforeHeaders?
    ensures Planned(w, v).status
         == if Applied(v).Some? && Applied(v).value.EffectiveKind().Unset? then Served(v).status
            else StatusFor(Applied(v), Served(v).status)
  {
    hide Applied, Served, Settled, FitIn, Has, FaultBody, PlannedOutcome;
  }

  /** A redirect status on an attempt of no kind: the client is sent 302, the entry says 200. */
  lemma ARedirectGoesUnreported(w: World)
    requires w.Patient()
    ensures
      var v := VisitFor(PLAIN.(status := 302), Response(200, "{}", None, "ok", true, None));
      var t := Handled(w, v).trace;
      && |Seen(t)| > 0 && Seen(t)[0] == Headers(302)
      && Entries.EntryOf(t).Some? && Entries.EntryOf(t).value.status == 200
  {
    hide Seen, Handled, Delivered, Receives, Entries.EntryOf;
    var v := VisitFor(PLAIN.(status := 302), Response(200, "{}", None, "ok", true, None));
    SeenHandled(w, v);
    PlannedStatus(w, v);
    Entries.OrdinaryEntriesTellTheTruth(w, v);
  }

  // ---- the prediction ----

  /** The attempt declares a body of its own that the executor cannot produce. */
  predicate LosesOverride(a: Attempt, resp: Response) {
    a.body.declared &&
    if resp.faultBody.Some? then resp.faultBody.value(a).None? else a.body.marshalled.None?
  }

  /** When the prediction is wrong: a declared body that is lost, or a kind nobody knows, under a status
      a body can be read under; or a handler whose own status, left to stand, shows its client no body. */
  predicate Mispredicted(a: Attempt, resp: Response) {
    var kind := a.EffectiveKind();
    if kind.IsStream() then !Readable(StatusOr(resp.status))
    else if !WritesBody(kind) then false
    else if a.body.declared then LosesOverride(a, resp) && Readable(StatusOr(StatusFor(Some(a), resp.status)))
    else if kind.Unknown? then Readable(StatusOr(StatusFor(Some(a), resp.status)))
    else a.status <= 0 && !Readable(StatusOr(resp.status))
  }

  lemma PredictionAgrees(a: Attempt, resp: Response)
    ensures var applied := if a.EffectiveKind().IsStream() then None else Some(a);
      (Receives(applied, resp) <==> a.DeliversBody()) <==> !Mispredicted(a, resp)
  {
  }

  /** For every attempt on every request that does not stream, with a client that stays: the prediction
      made before anything is rendered, that the client will hold the handler's body in a complete
      response that is no error, is right exactly when it is not mispredicted. */
  lemma PredictionIsExact(w: World, v: Visit, a: Attempt)
    requires w.Patient() && Reply(v).stream.None? && Drawn(v) == Some(a)
    ensures (Delivered(Seen(Handled(w, v).trace)) <==> a.DeliversBody()) <==> !Mispredicted(a, Reply(v))
  {
    hide Seen, Handled, Delivered, Decided, Reply, Mispredicted;
    SeenHandled(w, v);
    PredictionAgrees(a, Reply(v));
    SameButForEligibility(a, v);
  }

  lemma SameButForEligibility(a: Attempt, v: Visit)
    requires Reply(v).stream.None?
    ensures Receives(Applied(v), Served(v)) == Receives(Applied(v), Reply(v))
  {
    hide Decided, Reply, Eligible;
  }

  /** Under a success with a body, with a known kind whose declared body can be produced, the prediction
      is right. */
  lemma PredictionHolds(w: World, v: Visit, a: Attempt)
    requires w.Patient() && Reply(v).stream.None? && Drawn(v) == Some(a)
    requires 200 <= Reply(v).status < 300 && Reply(v).status != 204
    requires !a.EffectiveKind().Unknown? && !LosesOverride(a, Reply(v))
    ensures Delivered(Seen(Handled(w, v).trace)) <==> a.DeliversBody()
  {
    hide Seen, Handled, Delivered, Drawn, Reply;
    PredictionIsExact(w, v, a);
  }

  // ---- keeping a job ----

  /** The attempt a create's claim drew: what its job is kept, or not, on, before anything is rendered. */
  function ClaimedAttempt(v: Visit): Option<Attempt> { v.next.attempt }

  predicate MarkedAccepted(a: Option<Attempt>) { a.Some? && a.value.accepted }

  /** When a create's job is kept exactly if its client holds the reply that names it: for a request the
      attempt applies to, when the prediction is right; for any other, when the attempt would have kept
      the job and the reply shows a body, or neither. */
  predicate KeepsRightly(v: Visit) {
    var a := ClaimedAttempt(v);
    if MarkedAccepted(a) then true
    else if Eligible(v) && a.Some? then !Mispredicted(a.value, Reply(v))
    else Commits(a) == Readable(StatusOr(Reply(v).status))
  }

  lemma ClaimIsDrawn(v: Visit)
    requires Answered(v).claimed && Rejections.Promised(v.next)
    ensures Drawn(v) == if Eligible(v) then ClaimedAttempt(v) else None
  {
    hide Acted, Answered, Eligible;
    Rejections.AnsweredDecision(v);
  }

  /** A create that has claimed, whose reply does not stream, keeps its job exactly when its client holds
      the reply or its attempt is marked accepted, if and only if it keeps rightly. */
  lemma JobsAreKeptExactlyWhenTheReplyArrives(w: World, v: Visit)
    requires w.Patient() && Reply(v).stream.None? && Answered(v).claimed && Rejections.Promised(v.next)
    ensures var holds := Delivered(Seen(Handled(w, v).trace));
      (Commits(ClaimedAttempt(v)) <==> holds || MarkedAccepted(ClaimedAttempt(v))) <==> KeepsRightly(v)
  {
    hide Seen, Handled, Delivered, Answered, Reply, Eligible, Mispredicted;
    ClaimIsDrawn(v);
    if Eligible(v) && ClaimedAttempt(v).Some? {
      PredictionIsExact(w, v, ClaimedAttempt(v).value);
    } else {
      SeenHandled(w, v);
      UnfaultedReceives(v);
    }
  }

  lemma UnfaultedReceives(v: Visit)
    requires Drawn(v).None? && Reply(v).stream.None?
    ensures Applied(v).None? && Served(v).stream.None?
    ensures Receives(Applied(v), Served(v)) <==> Readable(StatusOr(Reply(v).status))
  {
    hide Decided, Reply, Eligible;
  }

  /** Under a success with a body, and an attempt of a known kind whose declared body can be produced, that
      is so if and only if the reply is one its attempt applies to or the attempt keeps the job anyway. */
  lemma SuccessfulCreatesKeepRightly(v: Visit)
    requires 200 <= Reply(v).status < 300 && Reply(v).status != 204
    requires ClaimedAttempt(v).Some? ==>
      var a := ClaimedAttempt(v).value; !a.EffectiveKind().Unknown? && !LosesOverride(a, Reply(v))
    ensures KeepsRightly(v) <==> Eligible(v) || Commits(ClaimedAttempt(v))
  {
    hide Reply, Eligible;
  }

  /** In the terms of the store: a create the engine answered as this visit's claim, and that minted, keeps
      its record exactly when its client holds the reply or the attempt is accepted, if and only if it
      keeps rightly. */
  lemma RecordsAreKeptExactlyWhenTheReplyArrives(
      w: World, v: Visit, mint: Minting.Minter, s: Minting.System, c: Minting.Create)
    requires w.Patient() && Reply(v).stream.None? && Answered(v).claimed
    requires v.next == Minting.Claim(s, c) && Minting.ReplyTo(mint, s, c).Minted?
    ensures var holds := Delivered(Seen(Handled(w, v).trace));
      (Minting.Keeps(mint, s, c) <==> holds || MarkedAccepted(ClaimedAttempt(v))) <==> KeepsRightly(v)
  {
    hide Seen, Handled, Delivered, Answered, Reply, KeepsRightly, Minting.ReplyTo;
    Rejections.EngineAnswersArePromised(Minting.Admitted(s, c), c.Cursor());
    JobsAreKeptExactlyWhenTheReplyArrives(w, v);
  }

  /** A create that opts its answer out of faults after its claim drew an attempt that loses the reply: no
      job is kept, and the client holds the reply that names it. */
  lemma OptingOutLosesTheJob(w: World)
    requires w.Patient()
    ensures
      var a := PLAIN.(kind := InvalidJSON);
      var v := VisitFor(a, Response(200, "{}", None, "ok", false, None)).(actions := [AskFault]);
      !Commits(ClaimedAttempt(v)) && !KeepsRightly(v) && Delivered(Seen(Handled(w, v).trace))
  {
    hide Seen, Handled, Delivered;
    var a := PLAIN.(kind := InvalidJSON);
    var v := VisitFor(a, Response(200, "{}", None, "ok", false, None)).(actions := [AskFault]);
    assert Acted(v, 1) == Claimed(v, Acted(v, 0));
    JobsAreKeptExactlyWhenTheReplyArrives(w, v);
  }

  /** The prediction does fail: a declared body the provider's renderer declines leaves the handler's
      body under a success, and a handler's own 204 shows its client none. */
  lemma PredictionFails(w: World)
    requires w.Patient()
    ensures
      var a := PLAIN.(body := Override(true, Some("{}")));
      var declines := Response(200, "{}", None, "ok", true, Some(_ => None));
      !a.DeliversBody() && Delivered(Seen(Handled(w, VisitFor(a, declines)).trace))
    ensures
      var empty := Response(204, "{}", None, "ok", true, None);
      PLAIN.DeliversBody() && !Delivered(Seen(Handled(w, VisitFor(PLAIN, empty)).trace))
  {
    hide Seen, Handled, Delivered;
    var a := PLAIN.(body := Override(true, Some("{}")));
    PredictionIsExact(w, VisitFor(a, Response(200, "{}", None, "ok", true, Some(_ => None))), a);
    PredictionIsExact(w, VisitFor(PLAIN, Response(204, "{}", None, "ok", true, None)), PLAIN);
  }
}
