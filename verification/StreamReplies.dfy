/** What becomes of a stream that was ready when an attempt was drawn: dropped, served under its own plan,
    or served as if nothing had been drawn; and what its client sees of it, write by write.  */
module StreamReplies {
  import opened Text
  import opened Faults
  import opened Sse
  import opened Connections
  import opened Streams
  import opened Executor
  import opened Handling
  import opened Delivery
  import opened Replies
  import Entries
  import Lifecycle
  import StreamChecks

  // ---- dropped streams ----

  /** The same visit, had its handler not streamed. */
  function Unstreamed(v: Visit): Visit { v.(resp := v.resp.(stream := None)) }

  lemma {:induction false} UnstreamedActs(v: Visit, n: nat)
    requires n <= |v.actions|
    ensures Acted(Unstreamed(v), n) == Acted(v, n)
  {
    if n > 0 { UnstreamedActs(v, n - 1); }
  }

  /** No byte of a stream is on the wire. */
  predicate Frameless(trace: seq<Event>) {
    trace == [] ||
    var before, e := trace[..|trace| - 1], trace[|trace| - 1];
    Frameless(before) && (e.Sent? ==> !e.origin.Frames?)
  }

  lemma EmitFrameless(l: Log, e: Event)
    requires Frameless(l.trace) && (e.Sent? ==> !e.origin.Frames?)
    ensures Frameless(Emit(l, e).trace)
  {
    assert (l.trace + [e])[..|l.trace|] == l.trace;
  }

  lemma WroteFrameless(w: World, l: Log, o: Origin, bytes: Bytes)
    requires Frameless(l.trace) && !o.Frames?
    ensures Frameless(Wrote(w, l, o, bytes).trace)
  {
    EmitFrameless(l, Sent(o, []));
    EmitFrameless(l, Sent(o, bytes[..Accepted(w, l, bytes)]));
  }

  lemma {:induction false} PadFrameless(w: World, l: Log, padding: nat)
    requires Frameless(l.trace)
    ensures Frameless(PadFrom(w, l, padding).trace)
    decreases padding
  {
    hide Wrote, Accepted, WriteFails, Frameless;
    if padding > 0 {
      var chunk := Spaces(if padding < PADDING_CHUNK then padding else PADDING_CHUNK);
      WroteFrameless(w, l, Padding, chunk);
      var n := Accepted(w, l, chunk);
      if !WriteFails(w, l, chunk) && n != 0 { PadFrameless(w, Wrote(w, l, Padding, chunk), padding - n); }
    }
  }

  lemma BodiesAreNotFrames(w: World, a: Attempt, resp: Response)
    ensures !FaultBody(w, a, resp).origin.Frames?
  {
  }

  lemma HeadersFrameless(l: Log, a: Option<Attempt>, resp: Response)
    requires Frameless(l.trace)
    ensures Frameless(WithHeaders(l, a, resp).trace)
  {
    EmitFrameless(l, Headers(StatusOr(StatusFor(a, resp.status))));
  }

  lemma TruncatedFrameless(w: World, hung: Log, a: Attempt, resp: Response, out: Outcome)
    requires Frameless(hung.trace)
    ensures
      var body := FaultBody(w, a, resp);
      var cut := Wrote(w, Recorded(hung, out), body.origin, body.bytes[..Truncation(a, |body.bytes|)]);
      Frameless(Emit(if a.reset then Emit(cut, Reset) else cut, Abort).trace)
  {
    hide Wrote, FaultBody, Frameless;
    var body := FaultBody(w, a, resp);
    BodiesAreNotFrames(w, a, resp);
    EmitFrameless(hung, Append(out));
    var part := body.bytes[..Truncation(a, |body.bytes|)];
    WroteFrameless(w, Recorded(hung, out), body.origin, part);
    var cut := Wrote(w, Recorded(hung, out), body.origin, part);
    EmitFrameless(cut, Reset);
    EmitFrameless(cut, Abort);
    EmitFrameless(Emit(cut, Reset), Abort);
  }

  lemma ExecutedFrameless(w: World, l: Log, a: Option<Attempt>, resp: Response, out: Outcome)
    requires Frameless(l.trace)
    ensures Frameless(Executed(w, l, a, resp, out).log.trace)
  {
    hide Wrote, WriteFails, Accepted, FaultBody, PadFrom, Frameless, Wire, WithHeaders, BytesSince, Recorded;
    HeadersFrameless(l, a, resp);
    var hung := Slept(w, WithHeaders(l, a, resp), AfterHeaders(a));
    if a.None? {
      WroteFrameless(w, hung, HandlerBody, resp.body);
    } else if a.value.EffectiveKind().CloseBeforeHeaders? {
      EmitFrameless(l, Reset);
      EmitFrameless(Emit(l, Reset), Abort);
    } else if a.value.EffectiveKind().TruncateBody? {
      TruncatedFrameless(w, hung, a.value, resp, out);
    } else {
      var body := FaultBody(w, a.value, resp);
      BodiesAreNotFrames(w, a.value, resp);
      WroteFrameless(w, hung, body.origin, body.bytes);
      PadFrameless(w, Wrote(w, hung, body.origin, body.bytes), Excess(a.value, body.bytes));
    }
  }

  lemma HandledFrameless(w: World, v: Visit)
    requires Served(v).stream.None?
    ensures Frameless(Handled(w, v).trace)
  {
    hide Frameless, Executed, Applied, Served, Planned, Decided;
    assert Frameless([]) by { NothingIsFrameless(); }
    EmitFrameless(START, Claim);
    var a, resp, out := Applied(v), Served(v), Planned(w, v);
    var waited := Slept(w, Started(v), PreDelay(a));
    EmitFrameless(waited, Append(out));
    var gone := out.(aborted := out.aborted || resp.stream.None?, written := 0);
    EmitFrameless(waited, Append(gone));
    var entered := if out.aborted && resp.stream.None? && !DefersAbort(a) then Recorded(waited, out) else waited;
    ExecutedFrameless(w, entered, a, resp, out);
    var r := Executed(w, entered, a, resp, out);
    EmitFrameless(r.log, Append(r.out));
  }

  lemma NothingIsFrameless()
    ensures Frameless([])
  {
  }

  /** A status, an unparseable or empty body, a wrong content type, extra fields or a closed connection is
      answered before the stream would start: the request leaves exactly what it would leave had its handler
      never streamed, no frame is sent and no stream is closed. */
  lemma StreamsAreDroppedFor(w: World, v: Visit, a: Attempt)
    requires Reply(v).stream.Some? && Drawn(v) == Some(a)
    requires a.EffectiveKind() in {Status, InvalidJSON, WrongContentType, EmptyBody, ExtraFields, CloseBeforeHeaders}
    ensures Handled(w, v) == Handled(w, Unstreamed(v))
    ensures Frameless(Handled(w, v).trace) && Closes(Handled(w, v).trace) == 0
  {
    hide Acted, Fails, Carried, OutcomeOf, Has, Frameless, Closes;
    UnstreamedActs(v, |v.actions|);
    assert Decided(Unstreamed(v)) == Decided(v);
    assert Served(v).stream.None? && Served(v) == Served(Unstreamed(v));
    HandledFrameless(w, v);
    Lifecycle.EveryRequestIsJournaledOnce(w, v);
  }

  // ---- served streams ----

  /** The attempts that assume an ordinary body: nothing of them applies where a stream is served. */
  predicate AssumesABody(a: Attempt) {
    var kind := a.EffectiveKind();
    || kind == TruncateBody || kind == OversizedBody
    || (!AnswersInstead(kind) && a.delayAfterHeaders > 0)
  }

  /** The attempt a served stream runs under. */
  function Running(v: Visit): Option<Attempt> {
    if Drawn(v).Some? && AssumesABody(Drawn(v).value) then None else Drawn(v)
  }

  lemma StreamsAreServedUnder(v: Visit)
    requires Reply(v).stream.Some? && (Drawn(v).Some? ==> !AnswersInstead(Drawn(v).value.EffectiveKind()))
    ensures Applied(v) == Running(v) && Served(v).stream == Reply(v).stream && Served(v).status == Reply(v).status
    ensures Drawn(v).Some? && AssumesABody(Drawn(v).value) ==>
      Finding(StreamAbortUnreachable, true) in Settled(v).findings
  {
    hide Decided, Reply, Eligible;
  }

  /** The chunk a run is cut at, if its attempt cuts one the stream has. */
  function CutAt(a: Option<Attempt>, s: Stream): Option<nat> {
    if a.Some? && a.value.EffectiveKind() in {StreamDisconnect, StreamTruncateChunk}
       && 0 <= a.value.afterChunk < |s.chunks|
    then Some(a.value.afterChunk) else None
  }

  /** The pace of a chunk: its own, and a stall's delay on top where the stall names it. */
  function PaceAt(a: Option<Attempt>, s: Stream, i: nat): int
    requires i < |s.chunks|
  {
    var stalled := a.Some? && a.value.EffectiveKind().StreamStall? && a.value.afterChunk == i;
    s.chunks[i].pace + if stalled then a.value.delay else 0
  }

  /** Chunks written whole, one write each. */
  function Chunkwise(s: Stream, i: nat, k: nat): (r: seq<Event>)
    requires i <= k <= |s.chunks|
    ensures |r| == k - i && forall j | 0 <= j < |r| :: r[j] == Sent(Frames, s.chunks[i + j].bytes)
  {
    seq(k - i, j requires 0 <= j < k - i => Sent(Frames, s.chunks[i + j].bytes))
  }

  /** How a run ends: the sentinel, if the stream has one; or the head of the chunk a truncation cuts, a
      reset if the attempt asks for one, and the abort. */
  function Ending(a: Option<Attempt>, s: Stream): seq<Event> {
    match CutAt(a, s)
    case None => if s.sentinel == "" then [] else [Sent(Frames, s.sentinel)]
    case Some(k) =>
      (if a.value.EffectiveKind().StreamTruncateChunk? then [Sent(Frames, Prefix(a.value, s.chunks[k].bytes))] else [])
      + (if a.value.reset then [Reset] else []) + [Abort]
  }

  /** Everything a run puts on the wire from chunk i on. */
  function ScriptFrom(a: Option<Attempt>, s: Stream, i: nat): seq<Event>
    requires i <= |s.chunks| && (CutAt(a, s).Some? ==> i <= CutAt(a, s).value)
  {
    Chunkwise(s, i, if CutAt(a, s).Some? then CutAt(a, s).value else |s.chunks|) + Ending(a, s)
  }

  lemma ScriptPeels(a: Option<Attempt>, s: Stream, i: nat)
    requires i < |s.chunks| && (CutAt(a, s).Some? ==> i < CutAt(a, s).value)
    ensures ScriptFrom(a, s, i) == [Sent(Frames, s.chunks[i].bytes)] + ScriptFrom(a, s, i + 1)
  {
    var k := if CutAt(a, s).Some? then CutAt(a, s).value else |s.chunks|;
    assert Chunkwise(s, i, k) == [Sent(Frames, s.chunks[i].bytes)] + Chunkwise(s, i + 1, k);
  }

  lemma PlansCut(a: Option<Attempt>, s: Stream, i: nat)
    requires i < |s.chunks|
    ensures var p := PlanStream(a, s);
      && (p.disconnectAt == i <==> CutAt(a, s) == Some(i) && a.value.EffectiveKind().StreamDisconnect?)
      && (p.truncateAt == i <==> CutAt(a, s) == Some(i) && a.value.EffectiveKind().StreamTruncateChunk?)
      && (p.truncateAt == i ==> p.chunks[i].bytes[..p.truncateBytes] == Prefix(a.value, s.chunks[i].bytes))
      && (CutAt(a, s) == Some(i) ==> p.reset == a.value.reset)
  {
  }

  lemma SeenFinish(l: Log, written: nat, sent: nat, state: StreamState, reset: bool)
    ensures var d := Finish(l, written, sent, state);
      && Seen(d.log.trace) == Seen(l.trace)
      && Seen(Aborting(d, reset).log.trace) == Seen(l.trace) + (if reset then [Reset] else []) + [Abort]
      && d.log.waits == l.waits == Aborting(d, reset).log.waits
  {
    hide Seen;
    var d := Finish(l, written, sent, state);
    SeenEmit(l.trace, Close(d.close));
    SeenEmit(d.log.trace, Reset);
    SeenEmit(d.log.trace, Abort);
    SeenEmit(d.log.trace + [Reset], Abort);
  }

  lemma SeenSentinel(w: World, l: Log, p: StreamPlan, written: nat, sent: nat)
    requires w.Patient() && !WritesNoBody(l.status)
    ensures Seen(SentinelFrom(w, l, p, written, sent).log.trace)
         == Seen(l.trace) + if p.sentinel == "" then [] else [Sent(Frames, p.sentinel)]
  {
    hide Seen, Wrote, Accepted, WriteFails, Finish;
    var l' := Slept(w, l, p.sentinelPace);
    assert w.client(l.met).None?;
    SeenWrote(w, l', Frames, p.sentinel);
    var n := Accepted(w, l', p.sentinel);
    SeenFinish(l, written, sent, Completed, false);
    SeenFinish(Wrote(w, l', Frames, p.sentinel), written + n, sent,
               if WriteFails(w, l', p.sentinel) then ClientGone else Completed, false);
  }

  /** A chunk before the cut is waited for and written whole, and the run goes on. */
  lemma RunGoesOn(w: World, l: Log, a: Option<Attempt>, s: Stream, i: nat, written: nat, sent: nat)
    requires w.Patient() && !WritesNoBody(l.status) && i < |s.chunks| && CutAt(a, s) != Some(i)
    ensures
      var p, b := PlanStream(a, s), s.chunks[i].bytes;
      var l' := Slept(w, l, p.PaceOf(i));
      StreamFrom(w, l, p, i, written, sent)
      == StreamFrom(w, Wrote(w, l', Frames, b), p, i + 1, written + Accepted(w, l', b), sent + 1)
  {
    hide Wrote, Accepted, WriteFails, Finish, Aborting, PlanStream, Prefix;
    PlansCut(a, s, i);
    assert w.client(l.met).None?;
    PatientWrites(w, Slept(w, l, PlanStream(a, s).PaceOf(i)), s.chunks[i].bytes);
  }

  lemma RunIsCut(w: World, l: Log, a: Option<Attempt>, s: Stream, i: nat, written: nat, sent: nat)
    requires w.Patient() && !WritesNoBody(l.status) && i < |s.chunks| && CutAt(a, s) == Some(i)
    ensures Seen(StreamFrom(w, l, PlanStream(a, s), i, written, sent).log.trace) == Seen(l.trace) + ScriptFrom(a, s, i)
    ensures StreamFrom(w, l, PlanStream(a, s), i, written, sent).log.waits
         == if a.value.EffectiveKind().StreamDisconnect? then l.waits
            else Slept(w, l, PlanStream(a, s).PaceOf(i)).waits
  {
    hide Seen, Wrote, Accepted, WriteFails, Finish, Aborting, PlanStream, Prefix, ScriptFrom, Slept;
    var p := PlanStream(a, s);
    PlansCut(a, s, i);
    EndsAtTheCut(a, s, i);
    if a.value.EffectiveKind().StreamDisconnect? {
      SeenFinish(l, written, sent, Aborted, p.reset);
    } else {
      var l' := Slept(w, l, p.PaceOf(i));
      SleepsQuietly(w, l, p.PaceOf(i));
      var b := Prefix(a.value, s.chunks[i].bytes);
      PatientWrites(w, l', b);
      SeenFinish(Wrote(w, l', Frames, b), written + Accepted(w, l', b), sent, Aborted, p.reset);
    }
  }

  lemma SleepsQuietly(w: World, l: Log, d: int)
    requires w.Patient()
    ensures var l' := Slept(w, l, d); l'.trace == l.trace && l'.status == l.status && !Gone(w, l, d)
    ensures Slept(w, l, d).waits == l.waits + if Hangs(w, d) then [d] else []
  {
    assert w.client(l.met).None?;
  }

  /** A run with a client that stays, from chunk i on. */
  lemma {:induction false} RunShows(
      w: World, l: Log, a: Option<Attempt>, s: Stream, i: nat, written: nat, sent: nat)
    requires w.Patient() && !WritesNoBody(l.status)
    requires i <= |s.chunks| && (CutAt(a, s).Some? ==> i <= CutAt(a, s).value)
    ensures Seen(StreamFrom(w, l, PlanStream(a, s), i, written, sent).log.trace) == Seen(l.trace) + ScriptFrom(a, s, i)
    decreases |s.chunks| - i
  {
    hide Seen, Wrote, Accepted, StreamFrom, PlanStream, ScriptFrom, Slept;
    if i == |s.chunks| {
      SentinelEnds(w, l, a, s, written, sent);
    } else if CutAt(a, s) == Some(i) {
      RunIsCut(w, l, a, s, i, written, sent);
    } else {
      var b, l' := s.chunks[i].bytes, Slept(w, l, PlanStream(a, s).PaceOf(i));
      RunGoesOn(w, l, a, s, i, written, sent);
      SleepsQuietly(w, l, PlanStream(a, s).PaceOf(i));
      PatientWrites(w, l', b);
      RunShows(w, Wrote(w, l', Frames, b), a, s, i + 1, written + Accepted(w, l', b), sent + 1);
      ScriptPeels(a, s, i);
      assert Seen(l.trace) + [Sent(Frames, b)] + ScriptFrom(a, s, i + 1) == Seen(l.trace) + ScriptFrom(a, s, i);
    }
  }

  lemma SentinelEnds(w: World, l: Log, a: Option<Attempt>, s: Stream, written: nat, sent: nat)
    requires w.Patient() && !WritesNoBody(l.status) && CutAt(a, s).None?
    ensures Seen(StreamFrom(w, l, PlanStream(a, s), |s.chunks|, written, sent).log.trace)
         == Seen(l.trace) + ScriptFrom(a, s, |s.chunks|)
  {
    hide Seen, SentinelFrom;
    SeenSentinel(w, l, PlanStream(a, s), written, sent);
    assert Chunkwise(s, |s.chunks|, |s.chunks|) == [];
  }

  lemma PatientWrites(w: World, l: Log, b: Bytes)
    requires w.Patient() && !WritesNoBody(l.status)
    ensures Seen(Wrote(w, l, Frames, b).trace) == Seen(l.trace) + [Sent(Frames, b)]
    ensures Wrote(w, l, Frames, b).status == l.status && !WriteFails(w, l, b)
    ensures Wrote(w, l, Frames, b).waits == l.waits
  {
    hide Seen;
    SeenWrote(w, l, Frames, b);
    assert w.client(l.met).None?;
  }

  lemma EndsAtTheCut(a: Option<Attempt>, s: Stream, i: nat)
    requires CutAt(a, s) == Some(i) && i < |s.chunks|
    ensures ScriptFrom(a, s, i) ==
      (if a.value.EffectiveKind().StreamTruncateChunk? then [Sent(Frames, Prefix(a.value, s.chunks[i].bytes))] else [])
      + (if a.value.reset then [Reset] else []) + [Abort]
  {
    assert Chunkwise(s, i, i) == [];
  }

  /** A truncation or an oversized body never applies to a stream, nor does a hang after headers unless its
      kind drops the stream; each is reported, and the stream is served as if nothing had been drawn. Any
      other attempt the stream outlives runs it: a client that stays sees the status, each chunk in a write
      of its own up to the cut, and the ending; and the stream is closed once. */
  lemma StreamsAreServed(w: World, v: Visit)
    requires w.Patient() && Reply(v).stream.Some?
    requires Drawn(v).Some? ==> !AnswersInstead(Drawn(v).value.EffectiveKind())
    ensures Closes(Handled(w, v).trace) == 1
    ensures Drawn(v).Some? && AssumesABody(Drawn(v).value) ==>
      Finding(StreamAbortUnreachable, true) in Settled(v).findings
    ensures var a, s := Running(v), Reply(v).stream.value;
      var code := StatusOn(a, Reply(v));
      code !in {101, 204, 304} ==> Seen(Handled(w, v).trace) == [Headers(code)] + ScriptFrom(a, s, 0)
  {
    hide Seen, Handled, Decided, Reply, Running, Applied, Served, Planned, Closes, ScriptFrom;
    StreamsAreServedUnder(v);
    Lifecycle.EveryRequestIsJournaledOnce(w, v);
    var a, s := Running(v), Reply(v).stream.value;
    var code := StatusOr(StatusFor(a, Reply(v).status));
    BodilessIs(code);
    if code !in {101, 204, 304} { ServedStreamShows(w, v); }
  }

  lemma ServedStreamShows(w: World, v: Visit)
    requires w.Patient() && Served(v).stream.Some?
    requires !WritesNoBody(FinalStatus(StatusOr(StatusFor(Applied(v), Served(v).status))))
    ensures Seen(Handled(w, v).trace)
         == [Headers(StatusOr(StatusFor(Applied(v), Served(v).status)))]
            + ScriptFrom(Applied(v), Served(v).stream.value, 0)
  {
    hide Seen, Applied, Served, Planned, Started, StreamFrom, PlanStream, ScriptFrom, Recorded, Closed;
    var a, resp, out := Applied(v), Served(v), Planned(w, v);
    var code := StatusOr(StatusFor(a, resp.status));
    SeenStarted(v);
    SeenQuietly(Started(v), out, StreamClose(0, 0, ClientGone));
    var waited := Slept(w, Recorded(Started(v), out), PreDelay(a));
    assert w.client(Recorded(Started(v), out).met).None?;
    SeenEmit(waited.trace, Headers(code));
    var open := HeadersSent(waited, code);
    RunShows(w, open, a, resp.stream.value, 0, 0, 0);
    var r := Performed(w, waited, a, resp, out);
    SeenQuietly(r.log, r.out, StreamClose(0, 0, ClientGone));
    SeenQuietly(Recorded(r.log, r.out), r.out, StreamClose(0, 0, ClientGone));
    assert [] + [Headers(code)] == [Headers(code)];
  }

  // ---- which attempt, and whether to stream ----

  /** The attempt a request is served under, if any: the drawn one, unless it does not fit. */
  function Serving(v: Visit): Option<Attempt> {
    if Drawn(v).None? then None
    else if Reply(v).stream.Some? && !AnswersInstead(Drawn(v).value.EffectiveKind()) then Running(v)
    else if Reply(v).stream.None? && Drawn(v).value.EffectiveKind().IsStream() then None
    else Drawn(v)
  }

  predicate WillStream(v: Visit) {
    Reply(v).stream.Some? && (Drawn(v).Some? ==> !AnswersInstead(Drawn(v).value.EffectiveKind()))
  }

  lemma ServingIsApplied(v: Visit)
    ensures Serving(v) == Applied(v) && (WillStream(v) <==> Served(v).stream.Some?)
    ensures WillStream(v) ==> Served(v).stream == Reply(v).stream
    ensures Served(v).status == Reply(v).status
  {
    hide Decided, Reply, Eligible;
  }

  /** The load-time check refuses on a streaming entry what an exchange that streams would drop, but for a
      hang after headers on a stream kind, which another check refuses, and a stream kind past the shortest
      stream; and on any other entry exactly the stream kinds. */
  lemma ChecksRefuseWhatIsDropped(a: Attempt, policy: StreamChecks.Policy, minChunks: int)
    ensures var code := StreamChecks.Judge(a, policy, minChunks);
      var streams := a.EffectiveKind() in {StreamDisconnect, StreamTruncateChunk, StreamStall};
      && (code == Some(StreamChecks.Mismatch) <==> if policy.Serve? then AssumesABody(a) && !streams else streams)
      && (code == Some(StreamChecks.AfterChunkOutOfRange) <==>
           policy.Serve? && streams && minChunks >= 0 && !(0 <= a.afterChunk < minChunks))
  {
  }
}
