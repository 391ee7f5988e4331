/** Streamed responses: what a fault attempt does to a planned stream, and the loop that writes it.  */
module Streams {
  import opened Text
  import opened Faults
  import opened Sse
  import opened Connections

  datatype Stream = Stream(grammar: string, chunks: seq<Chunk>, sentinel: Bytes, sentinelPace: int) {
    /** The bytes of an uninterrupted run. */
    function Whole(): Bytes { Concat(chunks) + sentinel }
  }

  lemma {:induction false} ConcatAppend(a: seq<Chunk>, b: seq<Chunk>)
    ensures Concat(a + b) == Concat(a) + Concat(b)
    decreases |a|
  {
    if a == [] {
      assert a + b == b;
    } else {
      ConcatAppend(a[1..], b);
      assert (a + b)[1..] == a[1..] + b;
    }
  }

  lemma ConcatOne(c: Chunk)
    ensures Concat([c]) == c.bytes
  {
    assert [c][1..] == [];
  }

  /** The total the plan will write, known before the first write. */
  method PlannedBytes(s: Stream) returns (n: nat)
    ensures n == |s.Whole()|
  {
    n := 0;
    for i := 0 to |s.chunks|
      invariant n == |Concat(s.chunks[..i])|
    {
      assert s.chunks[..i + 1] == s.chunks[..i] + [s.chunks[i]];
      ConcatAppend(s.chunks[..i], [s.chunks[i]]);
      ConcatOne(s.chunks[i]);
      n := n + |s.chunks[i].bytes|;
    }
    assert s.chunks[..|s.chunks|] == s.chunks;
    n := n + |s.sentinel|;
  }

  // ---- the plan ----

  /** How much of length bytes a truncation keeps: half of them unless the attempt says. */
  function Truncation(a: Attempt, length: nat): (n: nat)
    ensures n <= length
  {
    var n := if a.truncateAfterBytes <= 0 then length / 2 else a.truncateAfterBytes;
    if n < length then n else length
  }

  datatype StreamPlan = StreamPlan(
    chunks: seq<Chunk>, sentinel: Bytes, sentinelPace: int, stallAt: int, stallExtra: int,
    disconnectAt: int, truncateAt: int, truncateBytes: nat, reset: bool)
  {
    predicate Sound() {
      && (disconnectAt == -1 || truncateAt == -1)
      && (0 <= truncateAt < |chunks| ==> truncateBytes <= |chunks[truncateAt].bytes|)
    }

    function PaceOf(i: nat): int
      requires i < |chunks|
    {
      chunks[i].pace + if i == stallAt then stallExtra else 0
    }

    /** The chunk the run dies at, if it dies. */
    function Cut(): (k: Option<nat>)
      ensures k.Some? ==> k.value < |chunks|
    {
      if 0 <= disconnectAt < |chunks| then Some(disconnectAt)
      else if 0 <= truncateAt < |chunks| then Some(truncateAt)
      else None
    }

    function Partial(): Bytes
      requires Sound()
    {
      if 0 <= truncateAt < |chunks| then chunks[truncateAt].bytes[..truncateBytes] else []
    }

    /** The bytes the script puts on the wire from chunk i on. */
    function Rest(i: nat): Bytes
      requires Sound() && i <= |chunks| && (Cut().Some? ==> i <= Cut().value)
    {
      if Cut().Some? then Concat(chunks[i..Cut().value]) + Partial() else Concat(chunks[i..]) + sentinel
    }
  }

  function PlanStream(a: Option<Attempt>, s: Stream): (p: StreamPlan)
    ensures p.Sound() && p.chunks == s.chunks && p.sentinel == s.sentinel
  {
    var plain := StreamPlan(s.chunks, s.sentinel, s.sentinelPace, -1, 0, -1, -1, 0, false);
    if a.None? then plain
    else
      var after := a.value.afterChunk;
      match a.value.EffectiveKind()
      case StreamStall => plain.(stallAt := after, stallExtra := a.value.delay)
      case StreamDisconnect => plain.(disconnectAt := after, reset := a.value.reset)
      case StreamTruncateChunk =>
        var keep := if 0 <= after < |s.chunks| then Truncation(a.value, |s.chunks[after].bytes|) else 0;
        plain.(truncateAt := after, truncateBytes := keep, reset := a.value.reset)
      case _ => plain
  }

  /** Where the terminal frame is, or -1. */
  function FirstTerminal(chunks: seq<Chunk>, i: nat): (at: int)
    requires i <= |chunks|
    ensures at == -1 ==> forall j | i <= j < |chunks| :: !chunks[j].terminal
    ensures at != -1 ==> i <= at < |chunks| && chunks[at].terminal && forall j | i <= j < at :: !chunks[j].terminal
    decreases |chunks| - i
  {
    if i == |chunks| then -1 else if chunks[i].terminal then i else FirstTerminal(chunks, i + 1)
  }

  function Paces(p: StreamPlan): seq<int> { seq(|p.chunks|, i requires 0 <= i < |p.chunks| => p.PaceOf(i)) }

  function Total(paces: seq<int>): int {
    if paces == [] then 0 else Total(paces[..|paces| - 1]) + paces[|paces| - 1]
  }

  lemma {:induction false} TotalDiffers(a: seq<int>, b: seq<int>, at: int, extra: int)
    requires |a| == |b| && forall i | 0 <= i < |a| :: a[i] == b[i] + if i == at then extra else 0
    ensures Total(a) == Total(b) + if 0 <= at < |a| then extra else 0
  {
    if a != [] { TotalDiffers(a[..|a| - 1], b[..|b| - 1], at, extra); }
  }

  /** A stall slows the planned run by its delay, once, exactly when the chunk it names exists; no other
      attempt changes the pace. */
  lemma StallsAddTheirDelayOnce(a: Attempt, s: Stream)
    ensures Total(Paces(PlanStream(Some(a), s)))
         == Total(Paces(PlanStream(None, s)))
            + if a.EffectiveKind().StreamStall? && 0 <= a.afterChunk < |s.chunks| then a.delay else 0
  {
    var p := PlanStream(Some(a), s);
    TotalDiffers(Paces(p), Paces(PlanStream(None, s)), p.stallAt, p.stallExtra);
  }

  /** The planned half of a streamed outcome, final before the first byte. */
  function PlannedOutcome(a: Option<Attempt>, s: Stream): StreamOutcome {
    var p := PlanStream(a, s);
    StreamOutcome(
      |s.chunks|, |s.Whole()|, Paces(p), FirstTerminal(s.chunks, 0),
      if p.disconnectAt >= 0 then Some(p.disconnectAt) else if p.truncateAt >= 0 then Some(p.truncateAt) else None,
      if p.disconnectAt < 0 && p.truncateAt >= 0 then Some(p.truncateBytes) else None,
      if p.stallAt >= 0 then Some(p.stallExtra) else None,
      0, Opened)
  }

  // ---- the write loop ----

  datatype Done = Done(log: Log, close: StreamClose)

  function Finish(l: Log, written: nat, sent: nat, state: StreamState): Done {
    var c := StreamClose(written, sent, state);
    Done(Closed(l, c), c)
  }

  function Aborting(d: Done, reset: bool): Done {
    d.(log := Emit(if reset then Emit(d.log, Reset) else d.log, Abort))
  }

  function SentinelFrom(w: World, l: Log, p: StreamPlan, written: nat, sent: nat): Done {
    if p.sentinel == [] then Finish(l, written, sent, Completed)
    else
      var l' := Slept(w, l, p.sentinelPace);
      if Gone(w, l, p.sentinelPace) then Finish(l', written, sent, ClientGone)
      else
        Finish(Wrote(w, l', Frames, p.sentinel), written + Accepted(w, l', p.sentinel), sent,
               if WriteFails(w, l', p.sentinel) then ClientGone else Completed)
  }

  /** What the write loop does from chunk i on. */
  function StreamFrom(w: World, l: Log, p: StreamPlan, i: nat, written: nat, sent: nat): Done
    requires p.Sound() && i <= |p.chunks|
    decreases |p.chunks| - i
  {
    if i == |p.chunks| then SentinelFrom(w, l, p, written, sent)
    else if p.disconnectAt == i then Aborting(Finish(l, written, sent, Aborted), p.reset)
    else
      var l' := Slept(w, l, p.PaceOf(i));
      if Gone(w, l, p.PaceOf(i)) then Finish(l', written, sent, ClientGone)
      else
        var b := if p.truncateAt == i then p.chunks[i].bytes[..p.truncateBytes] else p.chunks[i].bytes;
        var n := Accepted(w, l', b);
        var after := Wrote(w, l', Frames, b);
        if WriteFails(w, l', b) then Finish(after, written + n, sent, ClientGone)
        else if p.truncateAt == i then Aborting(Finish(after, written + n, sent, Aborted), p.reset)
        else StreamFrom(w, after, p, i + 1, written + n, sent + 1)
  }

  function StatusOr(status: int): int { if status <= 0 then 200 else status }

  function StatusFor(a: Option<Attempt>, status: int): int {
    if a.Some? && a.value.status > 0 then a.value.status else status
  }

  function Streamed(w: World, l: Log, a: Option<Attempt>, s: Stream, status: int): Done {
    StreamFrom(w, HeadersSent(l, StatusOr(StatusFor(a, status))), PlanStream(a, s), 0, 0, 0)
  }

  /** Writes a stream: headers, each chunk in turn, the sentinel. The result is what the entry is
      amended with; an aborted one panics. */
  method ExecuteStream(c: Connection, a: Option<Attempt>, s: Stream, status: int) returns (report: StreamClose)
    modifies c
    ensures Done(c.Now(), report) == Streamed(c.world, old(c.Now()), a, s, status)
  {
    hide Wrote, Accepted, WriteFails, Slept, Gone, Closed, Emit, HeadersSent, PlanStream;
    c.WriteHeader(StatusOr(StatusFor(a, status)));
    var plan := PlanStream(a, s);
    var written: nat, sent: nat := 0, 0;
    ghost var target := Streamed(c.world, old(c.Now()), a, s, status);
    for i := 0 to |plan.chunks|
      invariant StreamFrom(c.world, c.Now(), plan, i, written, sent) == target
    {
      if plan.disconnectAt == i {
        report := StreamClose(written, sent, Aborted);
        c.Closer(report);
        if plan.reset { c.Note(Reset); }
        c.Note(Abort);
        return;
      }
      var gone := c.Sleep(plan.PaceOf(i));
      if gone {
        report := StreamClose(written, sent, ClientGone);
        c.Closer(report);
        return;
      }
      var b := plan.chunks[i].bytes;
      var truncating := plan.truncateAt == i;
      if truncating { b := b[..plan.truncateBytes]; }
      var n, failed := c.Write(Frames, b);
      written := written + n;
      if failed {
        report := StreamClose(written, sent, ClientGone);
        c.Closer(report);
        return;
      }
      if truncating {
        report := StreamClose(written, sent, Aborted);
        c.Closer(report);
        if plan.reset { c.Note(Reset); }
        c.Note(Abort);
        return;
      }
      sent := sent + 1;
    }
    var state := Completed;
    if plan.sentinel != [] {
      var gone := c.Sleep(plan.sentinelPace);
      if gone {
        state := ClientGone;
      } else {
        var n, failed := c.Write(Frames, plan.sentinel);
        written := written + n;
        if failed { state := ClientGone; }
      }
    }
    report := StreamClose(written, sent, state);
    c.Closer(report);
  }

  // ---- what reaches the wire ----

  lemma WroteOnWire(w: World, l: Log, o: Origin, bytes: Bytes)
    ensures var n := Accepted(w, l, bytes);
      && Wire(Wrote(w, l, o, bytes).trace) == Wire(l.trace) + bytes[..n]
      && (!WriteFails(w, l, bytes) ==> bytes[..n] == bytes)
  {
    EmitReads(l.trace, Sent(o, bytes[..Accepted(w, l, bytes)]));
  }

  lemma FinishOnWire(l: Log, written: nat, sent: nat, state: StreamState, reset: bool)
    ensures var d := Finish(l, written, sent, state);
      && Wire(d.log.trace) == Wire(l.trace) == Wire(Aborting(d, reset).log.trace)
      && d.close == StreamClose(written, sent, state) == Aborting(d, reset).close
  {
    var d := Finish(l, written, sent, state);
    EmitReads(l.trace, Close(d.close));
    EmitReads(d.log.trace, Reset);
    EmitReads(d.log.trace, Abort);
    EmitReads(d.log.trace + [Reset], Abort);
  }

  /** What a run from chunk i may report, given the bytes it put on the wire: whatever its client did,
      a prefix of the script, every chunk counted as sent whole, and nothing short of the script unless
      the client is gone. */
  ghost predicate Told(p: StreamPlan, i: nat, payload: Bytes, sent: nat, state: StreamState)
    requires p.Sound() && i <= |p.chunks| && (p.Cut().Some? ==> i <= p.Cut().value)
  {
    && payload <= p.Rest(i)
    && i + sent <= |p.chunks|
    && Concat(p.chunks[i..i + sent]) <= payload
    && (state.ClientGone? ||
         (payload == p.Rest(i)
          && (state.Completed? ==> p.Cut().None? && i + sent == |p.chunks|)
          && (state.Aborted? ==> p.Cut() == Some(i + sent))
          && !state.Opened?))
  }

  lemma NothingSent(p: StreamPlan, i: nat)
    requires p.Sound() && i <= |p.chunks| && (p.Cut().Some? ==> i <= p.Cut().value)
    ensures Told(p, i, [], 0, ClientGone)
  {
    assert p.chunks[i..i] == [];
  }

  lemma RestStep(p: StreamPlan, i: nat)
    requires p.Sound() && i < |p.chunks| && (p.Cut().Some? ==> i < p.Cut().value)
    ensures p.Rest(i) == p.chunks[i].bytes + p.Rest(i + 1)
  {
    var end := if p.Cut().Some? then p.Cut().value else |p.chunks|;
    assert p.chunks[i..end][1..] == p.chunks[i + 1..end];
    assert p.chunks[i..|p.chunks|] == p.chunks[i..];
    assert p.chunks[i + 1..|p.chunks|] == p.chunks[i + 1..];
  }

  /** A partly accepted chunk. */
  lemma PartSent(p: StreamPlan, i: nat, part: Bytes)
    requires p.Sound() && i < |p.chunks| && (p.Cut().Some? ==> i < p.Cut().value)
    requires part <= p.chunks[i].bytes
    ensures Told(p, i, part, 0, ClientGone)
  {
    RestStep(p, i);
    assert p.chunks[i..i] == [];
  }

  /** A whole chunk, then the rest of the run. */
  lemma ChunkSent(p: StreamPlan, i: nat, later: Bytes, sent: nat, state: StreamState)
    requires p.Sound() && i < |p.chunks| && (p.Cut().Some? ==> i < p.Cut().value)
    requires Told(p, i + 1, later, sent, state)
    ensures Told(p, i, p.chunks[i].bytes + later, sent + 1, state)
  {
    hide PlanStream;
    RestStep(p, i);
    assert p.chunks[i..i + (sent + 1)] == [p.chunks[i]] + p.chunks[i + 1..i + 1 + sent];
    ConcatAppend([p.chunks[i]], p.chunks[i + 1..i + 1 + sent]);
    ConcatOne(p.chunks[i]);
  }

  /** The scripted end of a run. */
  lemma CutHere(p: StreamPlan, i: nat, part: Bytes, state: StreamState)
    requires p.Sound() && p.Cut() == Some(i) && part <= p.Partial()
    requires state.ClientGone? || (state.Aborted? && part == p.Partial())
    ensures Told(p, i, part, 0, state)
  {
    assert p.chunks[i..i] == [];
  }

  lemma SentinelSent(p: StreamPlan, part: Bytes, state: StreamState)
    requires p.Sound() && p.Cut().None? && part <= p.sentinel
    requires state.ClientGone? || (state.Completed? && part == p.sentinel)
    ensures Told(p, |p.chunks|, part, 0, state)
  {
    assert p.chunks[|p.chunks|..|p.chunks|] == [];
    assert p.Rest(|p.chunks|) == p.sentinel;
  }

  lemma SentinelAccounts(w: World, l: Log, p: StreamPlan, written: nat, sent: nat) returns (payload: Bytes)
    requires p.Sound() && p.Cut().None?
    ensures var d := SentinelFrom(w, l, p, written, sent);
      && Wire(d.log.trace) == Wire(l.trace) + payload
      && d.close.written == written + |payload| && d.close.sent == sent
      && Told(p, |p.chunks|, payload, 0, d.close.state)
  {
    hide Told, Wire, Wrote, Accepted, WriteFails;
    var l' := Slept(w, l, p.sentinelPace);
    var n := Accepted(w, l', p.sentinel);
    var after := Wrote(w, l', Frames, p.sentinel);
    if p.sentinel == [] {
      payload := [];
      FinishOnWire(l, written, sent, Completed, false);
      SentinelSent(p, [], Completed);
    } else if Gone(w, l, p.sentinelPace) {
      payload := [];
      FinishOnWire(l', written, sent, ClientGone, false);
      SentinelSent(p, [], ClientGone);
    } else {
      payload := p.sentinel[..n];
      WroteOnWire(w, l', Frames, p.sentinel);
      var state := if WriteFails(w, l', p.sentinel) then ClientGone else Completed;
      FinishOnWire(after, written + n, sent, state, false);
      SentinelSent(p, payload, state);
    }
  }

  /** Whatever the client does, the run reports exactly what it put on the wire, byte count and whole
      chunks, and only a client that left, or a status that takes no body, makes it less than the
      script. */
  lemma {:induction false} StreamAccounts(w: World, l: Log, p: StreamPlan, i: nat, written: nat, sent: nat)
    returns (payload: Bytes)
    requires p.Sound() && i <= |p.chunks| && (p.Cut().Some? ==> i <= p.Cut().value)
    ensures var d := StreamFrom(w, l, p, i, written, sent);
      && Wire(d.log.trace) == Wire(l.trace) + payload
      && d.close.written == written + |payload| && d.close.sent >= sent
      && Told(p, i, payload, d.close.sent - sent, d.close.state)
    decreases |p.chunks| - i
  {
    hide Told, Wire, Wrote, Accepted, WriteFails, Finish, Aborting, StreamPlan.Rest;
    if i == |p.chunks| {
      payload := SentinelAccounts(w, l, p, written, sent);
    } else if p.disconnectAt == i {
      payload := [];
      FinishOnWire(l, written, sent, Aborted, p.reset);
      CutHere(p, i, [], Aborted);
    } else {
      var l' := Slept(w, l, p.PaceOf(i));
      if Gone(w, l, p.PaceOf(i)) {
        payload := [];
        FinishOnWire(l', written, sent, ClientGone, false);
        NothingSent(p, i);
      } else {
        var b := if p.truncateAt == i then p.chunks[i].bytes[..p.truncateBytes] else p.chunks[i].bytes;
        var n := Accepted(w, l', b);
        var after := Wrote(w, l', Frames, b);
        WroteOnWire(w, l', Frames, b);
        if WriteFails(w, l', b) {
          payload := b[..n];
          FinishOnWire(after, written + n, sent, ClientGone, false);
          if p.truncateAt == i { CutHere(p, i, payload, ClientGone); } else { PartSent(p, i, payload); }
        } else if p.truncateAt == i {
          payload := b;
          FinishOnWire(after, written + n, sent, Aborted, p.reset);
          CutHere(p, i, payload, Aborted);
        } else {
          var later := StreamAccounts(w, after, p, i + 1, written + n, sent + 1);
          payload := b + later;
          ChunkSent(p, i, later, StreamFrom(w, after, p, i + 1, written + n, sent + 1).close.sent - (sent + 1),
                    StreamFrom(w, after, p, i + 1, written + n, sent + 1).close.state);
        }
      }
    }
  }

  lemma {:induction false} PatientClientsStay(w: World, l: Log, p: StreamPlan, i: nat, written: nat, sent: nat)
    requires w.Patient() && !WritesNoBody(l.status) && p.Sound() && i <= |p.chunks|
    ensures !StreamFrom(w, l, p, i, written, sent).close.state.ClientGone?
    decreases |p.chunks| - i
  {
    if i < |p.chunks| && p.disconnectAt != i {
      var l' := Slept(w, l, p.PaceOf(i));
      var b := if p.truncateAt == i then p.chunks[i].bytes[..p.truncateBytes] else p.chunks[i].bytes;
      if p.truncateAt != i {
        PatientClientsStay(w, Wrote(w, l', Frames, b), p, i + 1, written + Accepted(w, l', b), sent + 1);
      }
    }
  }

  // ---- what the attempt says ----

  /** The kinds whose journaled outcome says aborted before a byte is written. */
  predicate ScriptsAbort(a: Option<Attempt>) {
    a.Some? && (a.value.EffectiveKind().StreamDisconnect? || a.value.EffectiveKind().StreamTruncateChunk?)
  }

  predicate InRange(a: Option<Attempt>, s: Stream) {
    a.Some? && 0 <= a.value.afterChunk < |s.chunks|
  }

  /** The bytes a run delivers: chunks before the cut and, for a truncation, the head of the chunk at
      it; or everything and the sentinel. */
  function ScriptedBytes(a: Option<Attempt>, s: Stream): Bytes {
    if ScriptsAbort(a) && InRange(a, s) then
      var k := a.value.afterChunk;
      Concat(s.chunks[..k]) +
        if a.value.EffectiveKind().StreamDisconnect? then []
        else s.chunks[k].bytes[..Truncation(a.value, |s.chunks[k].bytes|)]
    else s.Whole()
  }

  lemma PlanFollowsAttempt(a: Option<Attempt>, s: Stream)
    ensures var p := PlanStream(a, s);
      && p.Cut() == (if ScriptsAbort(a) && InRange(a, s) then Some(a.value.afterChunk) else None)
      && p.Rest(0) == ScriptedBytes(a, s)
  {
    var p := PlanStream(a, s);
    assert s.chunks[0..] == s.chunks;
    if p.Cut().Some? { assert s.chunks[0..p.Cut().value] == s.chunks[..p.Cut().value]; }
    if ScriptsAbort(a) && InRange(a, s) && a.value.EffectiveKind().StreamDisconnect? {
      assert p.Partial() == [];
    }
  }

  predicate TakesBody(a: Option<Attempt>, status: int) {
    !WritesNoBody(FinalStatus(StatusOr(StatusFor(a, status))))
  }

  /** With a client that stays, the wire carries exactly the scripted bytes, the report says exactly
      so, and the run aborts exactly when the attempt scripts an abort at a chunk that exists. */
  lemma WireIsTheScript(w: World, l: Log, a: Option<Attempt>, s: Stream, status: int)
    requires w.Patient() && TakesBody(a, status)
    ensures
      var d := Streamed(w, l, a, s, status);
      var aborts := ScriptsAbort(a) && InRange(a, s);
      && Wire(d.log.trace) == Wire(l.trace) + ScriptedBytes(a, s)
      && d.close == StreamClose(|ScriptedBytes(a, s)|, if aborts then a.value.afterChunk else |s.chunks|,
                                if aborts then Aborted else Completed)
  {
    hide Told, Wire, PlanStream, ScriptedBytes;
    var code := StatusOr(StatusFor(a, status));
    var l' := HeadersSent(l, code);
    var p := PlanStream(a, s);
    EmitReads(l.trace, Headers(code));
    PlanFollowsAttempt(a, s);
    PatientClientsStay(w, l', p, 0, 0, 0);
    var payload := StreamAccounts(w, l', p, 0, 0, 0);
    ToldInFull(p, payload, Streamed(w, l, a, s, status).close);
  }

  lemma ToldInFull(p: StreamPlan, payload: Bytes, c: StreamClose)
    requires p.Sound() && Told(p, 0, payload, c.sent, c.state) && !c.state.ClientGone?
    ensures payload == p.Rest(0)
    ensures c.sent == (if p.Cut().Some? then p.Cut().value else |p.chunks|)
    ensures c.state == if p.Cut().Some? then Aborted else Completed
  {
  }

  /** A client that goes, at any point, has received a prefix of the script; the byte count reported is
      the length of what it received, and the chunks reported sent are whole in it. */
  lemma LostClientsHoldAPrefix(w: World, l: Log, a: Option<Attempt>, s: Stream, status: int) returns (payload: Bytes)
    ensures
      var d := Streamed(w, l, a, s, status);
      && Wire(d.log.trace) == Wire(l.trace) + payload
      && payload <= ScriptedBytes(a, s)
      && d.close.written == |payload|
      && d.close.sent <= |s.chunks| && Concat(s.chunks[..d.close.sent]) <= payload
      && (d.close.state.Completed? ==> payload == s.Whole() && !(ScriptsAbort(a) && InRange(a, s)))
  {
    hide Wire, PlanStream, ScriptedBytes;
    var code := StatusOr(StatusFor(a, status));
    var l' := HeadersSent(l, code);
    var p := PlanStream(a, s);
    EmitReads(l.trace, Headers(code));
    PlanFollowsAttempt(a, s);
    payload := StreamAccounts(w, l', p, 0, 0, 0);
    var d := Streamed(w, l, a, s, status);
    assert s.chunks[0..0 + d.close.sent] == s.chunks[..d.close.sent];
    if d.close.state.Completed? { UncutIsWhole(a, s); }
  }

  lemma UncutIsWhole(a: Option<Attempt>, s: Stream)
    requires !(ScriptsAbort(a) && InRange(a, s))
    ensures ScriptedBytes(a, s) == s.Whole()
  {
  }

  // ---- reading it back ----

  const DONE_SENTINEL := "data: [DONE]\n\n"

  lemma DoneIsAFrame()
    ensures DONE_SENTINEL == FrameBytes("", "[DONE]")
    ensures Clean(Frame("", "[DONE]"))
  {
    SplitNone("[DONE]", '\n');
    TerminatedOne("data: [DONE]");
    TerminatedOne("");
    var lines := FrameLines("", "[DONE]");
    assert "data: " + "[DONE]" == "data: [DONE]";
    assert Prefixed("data: ", ["[DONE]"]) == ["data: [DONE]"];
    assert lines == ["data: [DONE]"] + [""];
    TerminatedAppend(["data: [DONE]"], [""]);
  }

  /** A client that stays parses a disconnected stream to exactly the frames before the cut, and an
      uninterrupted one to every frame and the sentinel's. */
  lemma TranscriptParses(w: World, a: Option<Attempt>, s: Stream, status: int, fs: seq<Frame>)
    requires w.Patient() && TakesBody(a, status)
    requires Encodes(s.chunks, fs) && (forall f | f in fs :: Clean(f)) && s.sentinel == DONE_SENTINEL
    requires a.Some? ==> !a.value.EffectiveKind().StreamTruncateChunk?
    ensures Parse(Wire(Streamed(w, START, a, s, status).log.trace))
         == if ScriptsAbort(a) && InRange(a, s) then fs[..a.value.afterChunk] else fs + [Frame("", "[DONE]")]
  {
    hide Parse, Wire, Streamed, FrameBytes;
    WireIsTheScript(w, START, a, s, status);
    NothingOnWire();
    assert Wire(Streamed(w, START, a, s, status).log.trace) == ScriptedBytes(a, s);
    if ScriptsAbort(a) && InRange(a, s) {
      CutAtAFrameBoundary(s.chunks, fs, a.value.afterChunk);
      assert ScriptedBytes(a, s) == Concat(s.chunks[..a.value.afterChunk]);
    } else {
      DoneIsAFrame();
      var done := Chunk(DONE_SENTINEL, 0, "", false);
      var chunks, frames := s.chunks + [done], fs + [Frame("", "[DONE]")];
      ConcatAppend(s.chunks, [done]);
      ConcatOne(done);
      CutAtAFrameBoundary(chunks, frames, |frames|);
      assert chunks[..|chunks|] == chunks && frames[..|frames|] == frames;
      UncutIsWhole(a, s);
    }
  }

  lemma NothingOnWire()
    ensures Wire(START.trace) == []
  {
  }
}
