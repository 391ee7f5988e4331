/** Applying a fault attempt to a response: the journal outcome computed beforehand, the body it
    writes, and the writers that put it on the wire.  */
module Executor {
  import opened Text
  import opened Faults
  import opened Connections
  import Engine
  import opened Streams

  const DEFAULT_INVALID_JSON: Bytes := "{\"results\": [{\"title\": \"unterminated\""

  datatype Response = Response(
    status: int, body: Bytes, stream: Option<Stream>, selection: string, faultEligible: bool,
    faultBody: Option<Attempt -> Option<Bytes>>)

  // ---- the body ----

  /** A body and whose it is. Merging fields into it leaves it its owner's. */
  datatype Body = Body(origin: Origin, bytes: Bytes)

  /** The body before extra fields are merged: the provider's own error shape, the attempt's, or the
      handler's. */
  function BaseBody(a: Attempt, resp: Response): Body {
    var rendered := Body(HandlerBody, resp.body);
    if resp.faultBody.Some? && (a.body.declared || a.status >= 400) then
      match resp.faultBody.value(a)
      case Some(b) => Body(RendererBody, b)
      case None => rendered
    else if a.body.declared && a.body.marshalled.Some? then Body(DeclaredBody, a.body.marshalled.value)
    else rendered
  }

  function Merged(w: World, a: Attempt, b: Body): Body {
    if a.extraFields == map[] then b
    else match w.merge(b.bytes, a.extraFields)
      case Some(bytes) => b.(bytes := bytes)
      case None => b
  }

  function FaultBody(w: World, a: Attempt, resp: Response): Body {
    match a.EffectiveKind()
    case InvalidJSON => Body(RawBody, if a.rawBody != "" then a.rawBody else DEFAULT_INVALID_JSON)
    case EmptyBody => Body(RawBody, [])
    case _ => Merged(w, a, BaseBody(a, resp))
  }

  // ---- the outcome, before anything is written ----

  function OutcomeOf(w: World, dec: Engine.Decision, resp: Response): Outcome {
    var plain := Outcome(
      if resp.faultEligible then ScenarioOutcome else ErrorOutcome,
      resp.selection, resp.status, dec.key, dec.index, Unfaulted, 0, 0, false, 0,
      if resp.stream.Some? then Some(PlannedOutcome(dec.attempt, resp.stream.value)) else None);
    if dec.attempt.None? then plain
    else
      var a := dec.attempt.value;
      var kind := a.EffectiveKind();
      var timed := plain.(delay := if kind.StreamStall? then 0 else a.delay, delayAfterHeaders := a.delayAfterHeaders);
      if kind.Unset? then
        if a.delay > 0 || a.delayAfterHeaders > 0 then timed.(kind := FaultOutcome, fault := Delayed) else timed
      else
        var out := timed.(kind := FaultOutcome, fault := Scripted(kind),
                          status := if a.status > 0 then a.status else resp.status);
        match kind
        case CloseBeforeHeaders => out.(aborted := true, status := 0)
        case TruncateBody => out.(aborted := true, written := Truncation(a, |FaultBody(w, a, resp).bytes|))
        case StreamDisconnect | StreamTruncateChunk => out.(aborted := true)
        case _ => out
  }

  // ---- the writers ----

  /** What execute leaves behind: the log, the outcome it returns, and whether it panicked instead. */
  datatype Ran = Ran(log: Log, out: Outcome, panicked: bool)

  function AfterHeaders(a: Option<Attempt>): int { if a.Some? then a.value.delayAfterHeaders else 0 }

  function Left(l: Log, out: Outcome): Ran { Ran(l, out.(aborted := true, written := 0), false) }

  const PADDING_CHUNK: nat := 65536

  function Spaces(n: nat): Bytes { seq(n, _ => ' ') }

  /** The padding loop of an oversized body. */
  function PadFrom(w: World, l: Log, padding: nat): Log
    decreases padding
  {
    if padding == 0 then l
    else
      var chunk := Spaces(if padding < PADDING_CHUNK then padding else PADDING_CHUNK);
      var n := Accepted(w, l, chunk);
      if WriteFails(w, l, chunk) || n == 0 then Wrote(w, l, Padding, chunk)
      else PadFrom(w, Wrote(w, l, Padding, chunk), padding - n)
  }

  function Excess(a: Attempt, body: Bytes): nat {
    if a.bodyBytes > |body| then a.bodyBytes - |body| else 0
  }

  function WithHeaders(l: Log, a: Option<Attempt>, resp: Response): Log {
    HeadersSent(l, StatusOr(StatusFor(a, resp.status)))
  }

  function BytesSince(before: Log, after: Log): nat {
    if |Wire(before.trace)| <= |Wire(after.trace)| then |Wire(after.trace)| - |Wire(before.trace)| else 0
  }

  /** execute, for a response that does not stream. */
  function Executed(w: World, l: Log, a: Option<Attempt>, resp: Response, out: Outcome): Ran {
    if a.None? then
      var open := WithHeaders(l, a, resp);
      Ran(Wrote(w, open, HandlerBody, resp.body), out.(written := Accepted(w, open, resp.body)), false)
    else
      var body := FaultBody(w, a.value, resp);
      var open := WithHeaders(l, a, resp);
      var hung := Slept(w, open, AfterHeaders(a));
      var left := Gone(w, open, AfterHeaders(a));
      match a.value.EffectiveKind()
      case CloseBeforeHeaders => Ran(Emit(Emit(l, Reset), Abort), out, true)
      case TruncateBody =>
        if left then Left(hung, out)
        else
          var part := body.bytes[..Truncation(a.value, |body.bytes|)];
          var cut := Wrote(w, Recorded(hung, out), body.origin, part);
          Ran(Emit(if a.value.reset then Emit(cut, Reset) else cut, Abort), out, true)
      case EmptyBody => if left then Left(hung, out) else Ran(hung, out.(written := 0), false)
      case OversizedBody =>
        if left then Left(hung, out)
        else
          var whole := Wrote(w, hung, body.origin, body.bytes);
          var end := if WriteFails(w, hung, body.bytes) then whole else PadFrom(w, whole, Excess(a.value, body.bytes));
          Ran(end, out.(written := BytesSince(hung, end)), false)
      case _ =>
        if left then Left(hung, out)
        else Ran(Wrote(w, hung, body.origin, body.bytes), out.(written := Accepted(w, hung, body.bytes)), false)
  }

  /** execute, for one that does. */
  function ExecutedStream(w: World, l: Log, a: Option<Attempt>, s: Stream, resp: Response, out: Outcome): Ran {
    var d := Streamed(w, l, a, s, resp.status);
    var amended := if out.stream.None? then None
      else Some(out.stream.value.(sent := d.close.sent, state := d.close.state));
    Ran(d.log, out.(written := d.close.written, stream := amended), d.close.state.Aborted?)
  }

  function Performed(w: World, l: Log, a: Option<Attempt>, resp: Response, out: Outcome): Ran {
    if resp.stream.Some? then ExecutedStream(w, l, a, resp.stream.value, resp, out) else Executed(w, l, a, resp, out)
  }

  lemma WroteGrows(w: World, l: Log, o: Origin, bytes: Bytes)
    ensures |Wire(Wrote(w, l, o, bytes).trace)| == |Wire(l.trace)| + Accepted(w, l, bytes)
  {
    WroteOnWire(w, l, o, bytes);
  }

  /** Pads with reused fixed-size chunks until the client has what the attempt asked for, or stops
      taking it. */
  method Pad(c: Connection, excess: nat) returns (written: nat)
    modifies c
    ensures c.Now() == PadFrom(c.world, old(c.Now()), excess)
    ensures |Wire(c.trace)| == |Wire(old(c.trace))| + written
  {
    hide Wire, Wrote, Accepted, WriteFails;
    written := 0;
    var padding: nat := excess;
    ghost var target := PadFrom(c.world, c.Now(), excess);
    ghost var before := |Wire(c.trace)|;
    while padding > 0
      invariant PadFrom(c.world, c.Now(), padding) == target
      invariant |Wire(c.trace)| == before + written
    {
      var chunk := Spaces(if padding < PADDING_CHUNK then padding else PADDING_CHUNK);
      WroteGrows(c.world, c.Now(), Padding, chunk);
      var n, failed := c.Write(Padding, chunk);
      written := written + n;
      padding := padding - n;
      if failed || n == 0 { return; }
    }
  }

  method WriteOversizedBody(c: Connection, a: Attempt, body: Body, status: int) returns (gone: bool, written: nat)
    modifies c
    ensures
      var w, open := c.world, HeadersSent(old(c.Now()), StatusOr(status));
      var hung := Slept(w, open, a.delayAfterHeaders);
      && gone == Gone(w, open, a.delayAfterHeaders)
      && (gone ==> c.Now() == hung && written == 0)
      && (!gone ==>
            var whole := Wrote(w, hung, body.origin, body.bytes);
            && c.Now() == (if WriteFails(w, hung, body.bytes) then whole else PadFrom(w, whole, Excess(a, body.bytes)))
            && |Wire(c.trace)| == |Wire(hung.trace)| + written)
  {
    hide Wire, Wrote, Accepted, WriteFails, Slept, Gone, HeadersSent, PadFrom;
    c.WriteHeader(StatusOr(status));
    gone := c.Sleep(a.delayAfterHeaders);
    if gone { return true, 0; }
    WroteGrows(c.world, c.Now(), body.origin, body.bytes);
    var failed;
    written, failed := c.Write(body.origin, body.bytes);
    if failed { return; }
    var padded := Pad(c, Excess(a, body.bytes));
    written := written + padded;
  }

  /** Headers, hang, journal, partial write, abort. The entry is appended after the hang and before the
      first byte, and not at all here when the client leaves during the hang. */
  method TruncateBody(c: Connection, a: Attempt, body: Body, status: int, out: Outcome) returns (gone: bool)
    modifies c
    ensures
      var w, open := c.world, HeadersSent(old(c.Now()), StatusOr(status));
      var hung := Slept(w, open, a.delayAfterHeaders);
      && gone == Gone(w, open, a.delayAfterHeaders)
      && (gone ==> c.Now() == hung)
      && (!gone ==>
            var cut := Wrote(w, Recorded(hung, out), body.origin, body.bytes[..Truncation(a, |body.bytes|)]);
            c.Now() == if a.reset then Emit(cut, Reset) else cut)
  {
    hide Wrote, Accepted, WriteFails, Slept, Gone, HeadersSent, Recorded, Emit;
    c.WriteHeader(StatusOr(status));
    gone := c.Sleep(a.delayAfterHeaders);
    if gone { return; }
    c.Record(out);
    var n, failed := c.Write(body.origin, body.bytes[..Truncation(a, |body.bytes|)]);
    if a.reset { c.Note(Reset); }
  }

  /** Applies the attempt, if any, to the wire. */
  method Execute(c: Connection, a: Option<Attempt>, resp: Response, out: Outcome)
    returns (result: Outcome, panicked: bool)
    modifies c
    ensures Ran(c.Now(), result, panicked) == Performed(c.world, old(c.Now()), a, resp, out)
  {
    hide Wire, Wrote, Accepted, WriteFails, Slept, Gone, HeadersSent, Recorded, Emit, PadFrom, Streamed, FaultBody;
    result, panicked := out, false;
    if resp.stream.Some? {
      var report := ExecuteStream(c, a, resp.stream.value, resp.status);
      result := result.(written := report.written);
      if out.stream.Some? {
        result := result.(stream := Some(out.stream.value.(sent := report.sent, state := report.state)));
      }
      panicked := report.state.Aborted?;
      return;
    }
    if a.None? {
      c.WriteHeader(StatusOr(resp.status));
      var n, failed := c.Write(HandlerBody, resp.body);
      result := result.(written := n);
      return;
    }
    var body := FaultBody(c.world, a.value, resp);
    var status := StatusFor(a, resp.status);
    var kind := a.value.EffectiveKind();
    if kind.CloseBeforeHeaders? {
      c.Note(Reset);
      c.Note(Abort);
      panicked := true;
    } else if kind.TruncateBody? {
      var gone := TruncateBody(c, a.value, body, status, out);
      if gone {
        result := result.(aborted := true, written := 0);
      } else {
        c.Note(Abort);
        panicked := true;
      }
    } else if kind.OversizedBody? {
      var gone, n := WriteOversizedBody(c, a.value, body, status);
      result := if gone then result.(aborted := true, written := 0) else result.(written := n);
    } else {
      c.WriteHeader(StatusOr(status));
      var gone := c.Sleep(a.value.delayAfterHeaders);
      var n := 0;
      if gone {
        result := result.(aborted := true);
      } else if !kind.EmptyBody? {
        var failed;
        n, failed := c.Write(body.origin, body.bytes);
      }
      result := result.(written := n);
    }
  }
}
