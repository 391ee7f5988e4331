/** What a client that stays is sent when a request does not stream, kind by kind and byte by byte.  */
module Replies {
  import opened Text
  import opened Faults
  import opened Connections
  import opened Executor
  import opened Handling
  import opened Delivery
  import opened Streams
  import Rejections

  // ---- which body ----

  /** The body an attempt's response starts from, and whose it is: the provider's own error shape where its
      renderer is asked and answers, a declared body where there is no renderer to ask, and the handler's
      otherwise. */
  predicate StartsFrom(a: Attempt, resp: Response, o: Origin, base: Bytes) {
    var rendered := resp.faultBody.Some? && (a.body.declared || a.status >= 400) && resp.faultBody.value(a).Some?;
    var declared := resp.faultBody.None? && a.body.declared && a.body.marshalled.Some?;
    && (o.RendererBody? <==> rendered) && (o.DeclaredBody? <==> declared)
    && (o.HandlerBody? <==> !rendered && !declared)
    && (rendered ==> base == resp.faultBody.value(a).value)
    && (declared ==> base == a.body.marshalled.value)
    && (!rendered && !declared ==> base == resp.body)
  }

  /** Extra fields are merged in where they can be, and leave the body alone where they cannot. */
  predicate MergesTo(w: World, a: Attempt, base: Bytes, bytes: Bytes) {
    bytes == if a.extraFields != map[] && w.merge(base, a.extraFields).Some?
             then w.merge(base, a.extraFields).value else base
  }

  /** The whole body of a faulted response. */
  ghost predicate IsBody(w: World, a: Attempt, resp: Response, o: Origin, bytes: Bytes) {
    var kind := a.EffectiveKind();
    && (kind.InvalidJSON? ==>
         o == RawBody && bytes == if a.rawBody == "" then "{\"results\": [{\"title\": \"unterminated\"" else a.rawBody)
    && (kind.EmptyBody? ==> o == RawBody && bytes == "")
    && (!kind.InvalidJSON? && !kind.EmptyBody? ==>
         exists base: Bytes :: StartsFrom(a, resp, o, base) && MergesTo(w, a, base, bytes))
  }

  lemma FaultBodiesAre(w: World, a: Attempt, resp: Response)
    ensures IsBody(w, a, resp, FaultBody(w, a, resp).origin, FaultBody(w, a, resp).bytes)
  {
    var base := BaseBody(a, resp);
    assert StartsFrom(a, resp, base.origin, base.bytes);
    assert MergesTo(w, a, base.bytes, Merged(w, a, base).bytes);
  }

  // ---- what is sent ----

  /** The status on the wire: the attempt's, else the handler's, else 200. */
  function StatusOn(a: Option<Attempt>, resp: Response): int {
    if a.Some? && a.value.status > 0 then a.value.status else if resp.status > 0 then resp.status else 200
  }

  /** One write under a status: nothing but an empty one under 101, 204 and 304. */
  function Sends(code: int, o: Origin, bytes: Bytes): seq<Event> {
    if bytes != "" && code in {101, 204, 304} then [] else [Sent(o, bytes)]
  }

  /** How much of a body a truncation sends: half of it unless the attempt says. */
  function Prefix(a: Attempt, bytes: Bytes): Bytes {
    if a.truncateAfterBytes <= 0 then bytes[..|bytes| / 2]
    else if a.truncateAfterBytes < |bytes| then bytes[..a.truncateAfterBytes]
    else bytes
  }

  /** The events a client that stays sees of a faulted response with this status and body. */
  ghost predicate Shows(a: Attempt, code: int, o: Origin, bytes: Bytes, seen: seq<Event>) {
    var kind := a.EffectiveKind();
    if kind.CloseBeforeHeaders? then seen == [Reset, Abort]
    else if kind.EmptyBody? then seen == [Headers(code)]
    else if kind.TruncateBody? then
      seen == [Headers(code)] + Sends(code, o, Prefix(a, bytes)) + (if a.reset then [Reset] else []) + [Abort]
    else if kind.OversizedBody? then
      var whole := [Headers(code)] + Sends(code, o, bytes);
      && |whole| <= |seen| && seen[..|whole|] == whole
      && (code !in {101, 204, 304} ==>
           Pads(seen[|whole|..], if a.bodyBytes > |bytes| then a.bodyBytes - |bytes| else 0))
      && (code in {101, 204, 304} ==> seen == whole)
    else seen == [Headers(code)] + Sends(code, o, bytes)
  }

  lemma BodilessIs(code: int)
    ensures WritesNoBody(FinalStatus(code)) <==> code in {101, 204, 304}
  {
  }

  lemma StatusIs(a: Option<Attempt>, resp: Response)
    ensures StatusOr(StatusFor(a, resp.status)) == StatusOn(a, resp)
  {
  }

  lemma OpenedStatus(l: Log, a: Option<Attempt>, resp: Response)
    ensures WithHeaders(l, a, resp).status == FinalStatus(StatusOr(StatusFor(a, resp.status)))
    ensures Seen(WithHeaders(l, a, resp).trace) == Seen(l.trace) + [Headers(StatusOr(StatusFor(a, resp.status)))]
  {
    SeenEmit(l.trace, Headers(StatusOr(StatusFor(a, resp.status))));
  }

  lemma PrefixIs(a: Attempt, bytes: Bytes)
    ensures bytes[..Truncation(a, |bytes|)] == Prefix(a, bytes)
  {
  }

  lemma TruncationShows(w: World, l: Log, a: Attempt, resp: Response, out: Outcome, code: int)
    requires w.Patient() && a.EffectiveKind().TruncateBody? && code == StatusOr(StatusFor(Some(a), resp.status))
    ensures var body := FaultBody(w, a, resp);
      Seen(Executed(w, l, Some(a), resp, out).log.trace) ==
        Seen(l.trace) + ([Headers(code)] + Sends(code, body.origin, Prefix(a, body.bytes))
                         + (if a.reset then [Reset] else []) + [Abort])
  {
    hide Seen, Wrote, FaultBody, StatusOr, StatusFor, FinalStatus;
    BodilessIs(code);
    OpenedStatus(l, Some(a), resp);
    var body := FaultBody(w, a, resp);
    PrefixIs(a, body.bytes);
    var hung := Slept(w, WithHeaders(l, Some(a), resp), a.delayAfterHeaders);
    assert w.client(WithHeaders(l, Some(a), resp).met).None?;
    SeenEmit(hung.trace, Append(out));
    var part := body.bytes[..Truncation(a, |body.bytes|)];
    var cut := Wrote(w, Recorded(hung, out), body.origin, part);
    SeenWrote(w, Recorded(hung, out), body.origin, part);
    SeenEmit(cut.trace, Reset);
    SeenEmit(cut.trace, Abort);
    SeenEmit(cut.trace + [Reset], Abort);
  }

  lemma OversizedShows(w: World, l: Log, a: Attempt, resp: Response, out: Outcome, code: int) returns (pads: seq<Event>)
    requires w.Patient() && a.EffectiveKind().OversizedBody? && code == StatusOr(StatusFor(Some(a), resp.status))
    ensures var body := FaultBody(w, a, resp);
      && Seen(Executed(w, l, Some(a), resp, out).log.trace)
         == Seen(l.trace) + ([Headers(code)] + Sends(code, body.origin, body.bytes) + pads)
      && (code !in {101, 204, 304} ==> Pads(pads, Excess(a, body.bytes)))
      && (code in {101, 204, 304} ==> pads == [])
  {
    hide Seen, Wrote, PadFrom, FaultBody, StatusOr, StatusFor, FinalStatus, Pads, BytesSince;
    BodilessIs(code);
    OpenedStatus(l, Some(a), resp);
    var body := FaultBody(w, a, resp);
    var hung := Slept(w, WithHeaders(l, Some(a), resp), a.delayAfterHeaders);
    assert w.client(WithHeaders(l, Some(a), resp).met).None? && w.client(hung.met).None?;
    SeenWrote(w, hung, body.origin, body.bytes);
    pads := [];
    if !WriteFails(w, hung, body.bytes) {
      pads := SeenPad(w, Wrote(w, hung, body.origin, body.bytes), Excess(a, body.bytes));
    }
  }

  /** Every other kind: headers, then the body, if there is to be any. */
  lemma PlainShows(w: World, l: Log, a: Attempt, resp: Response, out: Outcome, code: int)
    requires w.Patient() && code == StatusOr(StatusFor(Some(a), resp.status))
    requires var kind := a.EffectiveKind(); !kind.CloseBeforeHeaders? && !kind.TruncateBody? && !kind.OversizedBody?
    ensures var body := FaultBody(w, a, resp);
      Seen(Executed(w, l, Some(a), resp, out).log.trace) ==
        Seen(l.trace)
        + ([Headers(code)] + if a.EffectiveKind().EmptyBody? then [] else Sends(code, body.origin, body.bytes))
  {
    hide Seen, Wrote, FaultBody, StatusOr, StatusFor, FinalStatus;
    BodilessIs(code);
    OpenedStatus(l, Some(a), resp);
    var body := FaultBody(w, a, resp);
    var hung := Slept(w, WithHeaders(l, Some(a), resp), a.delayAfterHeaders);
    assert w.client(WithHeaders(l, Some(a), resp).met).None?;
    SeenWrote(w, hung, body.origin, body.bytes);
  }

  lemma ExecutedShows(w: World, l: Log, a: Attempt, resp: Response, out: Outcome, code: int) returns (seen: seq<Event>)
    requires w.Patient() && code == StatusOr(StatusFor(Some(a), resp.status))
    ensures var body := FaultBody(w, a, resp);
      && Seen(Executed(w, l, Some(a), resp, out).log.trace) == Seen(l.trace) + seen
      && Shows(a, code, body.origin, body.bytes, seen)
  {
    hide Seen, FaultBody, Pads, StatusOr, StatusFor, Prefix;
    var kind, body := a.EffectiveKind(), FaultBody(w, a, resp);
    if kind.CloseBeforeHeaders? {
      SeenEmit(l.trace, Reset);
      SeenEmit(l.trace + [Reset], Abort);
      seen := [Reset, Abort];
    } else if kind.TruncateBody? {
      TruncationShows(w, l, a, resp, out, code);
      seen := [Headers(code)] + Sends(code, body.origin, Prefix(a, body.bytes))
              + (if a.reset then [Reset] else []) + [Abort];
    } else if kind.OversizedBody? {
      var pads := OversizedShows(w, l, a, resp, out, code);
      var whole := [Headers(code)] + Sends(code, body.origin, body.bytes);
      seen := whole + pads;
      assert seen[..|whole|] == whole && seen[|whole|..] == pads;
    } else {
      PlainShows(w, l, a, resp, out, code);
      seen := [Headers(code)] + if kind.EmptyBody? then [] else Sends(code, body.origin, body.bytes);
    }
  }

  // ---- whole requests ----

  /** What a client that stays sees of a whole request that does not stream. */
  lemma HandledShows(w: World, v: Visit) returns (entered: Log, out: Outcome)
    requires w.Patient() && Served(v).stream.None?
    ensures Seen(entered.trace) == []
    ensures Seen(Handled(w, v).trace) == Seen(Executed(w, entered, Applied(v), Served(v), out).log.trace)
  {
    hide Seen, Served, Executed, Recorded, Decided, Applied, Planned;
    var a, resp := Applied(v), Served(v);
    out := Planned(w, v);
    SeenStarted(v);
    var waited := Slept(w, Started(v), PreDelay(a));
    entered := if out.aborted && resp.stream.None? && !DefersAbort(a) then Recorded(waited, out) else waited;
    assert w.client(Started(v).met).None?;
    SeenQuietly(waited, out, StreamClose(0, 0, ClientGone));
    var r := Executed(w, entered, a, resp, out);
    SeenQuietly(r.log, r.out, StreamClose(0, 0, ClientGone));
  }

  /** The kinds answered as an ordinary response even where a stream was ready. */
  predicate AnswersInstead(kind: Kind) {
    kind in {Status, InvalidJSON, WrongContentType, EmptyBody, ExtraFields, CloseBeforeHeaders}
  }

  lemma AppliedInstead(v: Visit, a: Attempt)
    requires Drawn(v) == Some(a) && !a.EffectiveKind().IsStream()
    requires Reply(v).stream.None? || AnswersInstead(a.EffectiveKind())
    ensures Applied(v) == Some(a) && Served(v) == Reply(v).(stream := None, faultEligible := Eligible(v))
  {
    hide Decided, Reply, Eligible;
  }

  /** For every attempt a request that does not stream, or will not now, is faulted with: a client that
      stays sees exactly the events of the attempt's kind, under the status and with the body it asks
      for. */
  lemma FaultedRepliesAreSent(w: World, v: Visit, a: Attempt) returns (o: Origin, bytes: Bytes)
    requires w.Patient() && Drawn(v) == Some(a) && !a.EffectiveKind().IsStream()
    requires Reply(v).stream.None? || AnswersInstead(a.EffectiveKind())
    ensures IsBody(w, a, Reply(v), o, bytes)
    ensures Shows(a, StatusOn(Some(a), Reply(v)), o, bytes, Seen(Handled(w, v).trace))
  {
    hide Seen, Handled, Drawn, Reply, Eligible, IsBody, Shows, Executed, FaultBody;
    AppliedInstead(v, a);
    var resp := Served(v);
    var entered, out := HandledShows(w, v);
    var code := StatusOr(StatusFor(Some(a), resp.status));
    StatusIs(Some(a), resp);
    o, bytes := FaultBody(w, a, resp).origin, FaultBody(w, a, resp).bytes;
    BodiesIgnoreStreams(w, a, Reply(v), resp);
    var seen := ExecutedShows(w, entered, a, resp, out, code);
    assert [] + seen == seen;
  }

  lemma BodiesIgnoreStreams(w: World, a: Attempt, r: Response, s: Response)
    requires s.body == r.body && s.faultBody == r.faultBody
    ensures IsBody(w, a, r, FaultBody(w, a, s).origin, FaultBody(w, a, s).bytes)
  {
    hide IsBody;
    FaultBodiesAre(w, a, r);
  }

  /** A request nothing is drawn for, or that is drawn a streaming attempt it cannot use, is answered with
      the handler's own status and body. */
  lemma UnfaultedRepliesAreSent(w: World, v: Visit)
    requires w.Patient() && Reply(v).stream.None?
    requires Drawn(v).Some? ==> Drawn(v).value.EffectiveKind().IsStream()
    ensures var code := StatusOn(None, Reply(v));
      Seen(Handled(w, v).trace) == [Headers(code)] + Sends(code, HandlerBody, Reply(v).body)
    ensures Drawn(v).Some? ==> Finding(StreamAbortUnreachable, true) in Settled(v).findings
  {
    hide Seen, Handled, Decided, Reply, Eligible;
    var entered, out := HandledShows(w, v);
    var code := StatusOr(StatusFor(None, Reply(v).status));
    BodilessIs(code);
    OpenedStatus(entered, None, Served(v));
    SeenWrote(w, WithHeaders(entered, None, Served(v)), HandlerBody, Reply(v).body);
  }
}
