/** Whether the journal tells the truth: the entry and its amendment against what reached the wire.  */
module Entries {
  import opened Text
  import opened Faults
  import opened Sse
  import opened Connections
  import opened Streams
  import opened Executor
  import opened Handling
  import opened Lifecycle
  import StreamChecks

  // ---- reading a trace ----

  function EntryOf(trace: seq<Event>): Option<Outcome> {
    if trace == [] then None
    else
      var before, e := EntryOf(trace[..|trace| - 1]), trace[|trace| - 1];
      if before.None? && e.Append? then Some(e.outcome) else before
  }

  function CloseOf(trace: seq<Event>): Option<StreamClose> {
    if trace == [] then None
    else
      var before, e := CloseOf(trace[..|trace| - 1]), trace[|trace| - 1];
      if before.None? && e.Close? then Some(e.close) else before
  }

  predicate Died(trace: seq<Event>) { trace != [] && (Died(trace[..|trace| - 1]) || trace[|trace| - 1].Abort?) }

  /** Everything the entry is held against. */
  datatype Story = Story(entry: Option<Outcome>, close: Option<StreamClose>, died: bool, wire: Bytes)

  function StoryOf(trace: seq<Event>): Story { Story(EntryOf(trace), CloseOf(trace), Died(trace), Wire(trace)) }

  lemma Tell(l: Log, e: Event)
    ensures
      var s := StoryOf(l.trace);
      StoryOf(Emit(l, e).trace) == Story(
        if s.entry.None? && e.Append? then Some(e.outcome) else s.entry,
        if s.close.None? && e.Close? then Some(e.close) else s.close,
        s.died || e.Abort?,
        s.wire + if e.Sent? then e.bytes else [])
  {
    assert (l.trace + [e])[..|l.trace|] == l.trace;
  }

  /** A log whose flags and trace agree on what has been told. */
  predicate Straight(l: Log) {
    (l.appended <==> EntryOf(l.trace).Some?) && (l.closed <==> CloseOf(l.trace).Some?)
  }

  lemma TellRecorded(l: Log, out: Outcome)
    requires Straight(l)
    ensures Straight(Recorded(l, out)) && Recorded(l, out).appended && Recorded(l, out).closed == l.closed
    ensures StoryOf(Recorded(l, out).trace)
         == if l.appended then StoryOf(l.trace) else StoryOf(l.trace).(entry := Some(out))
  {
    Tell(l, Append(out));
    assert StoryOf(l.trace).wire + [] == StoryOf(l.trace).wire;
  }

  lemma TellClosed(l: Log, c: StreamClose)
    requires Straight(l)
    ensures Straight(Closed(l, c)) && Closed(l, c).closed && Closed(l, c).appended == l.appended
    ensures StoryOf(Closed(l, c).trace) == if l.closed then StoryOf(l.trace) else StoryOf(l.trace).(close := Some(c))
  {
    Tell(l, Close(c));
    assert StoryOf(l.trace).wire + [] == StoryOf(l.trace).wire;
  }

  lemma TellQuiet(l: Log, e: Event)
    requires Straight(l) && (e.Headers? || e.Reset? || e.Abort?)
    ensures Straight(Emit(l, e))
    ensures StoryOf(Emit(l, e).trace) == StoryOf(l.trace).(died := StoryOf(l.trace).died || e.Abort?)
  {
    Tell(l, e);
    assert StoryOf(l.trace).wire + [] == StoryOf(l.trace).wire;
  }

  lemma TellWrote(w: World, l: Log, o: Origin, bytes: Bytes)
    requires Straight(l)
    ensures var after := Wrote(w, l, o, bytes);
      && Straight(after) && after.appended == l.appended && after.closed == l.closed && after.status == l.status
      && StoryOf(after.trace) == StoryOf(l.trace).(wire := StoryOf(l.trace).wire + bytes[..Accepted(w, l, bytes)])
  {
    Tell(l, Sent(o, bytes[..Accepted(w, l, bytes)]));
    assert StoryOf(l.trace).wire + [] == StoryOf(l.trace).wire;
  }

  // ---- streams ----

  /** A finished run: closed with what it reports, dead when it aborted, and otherwise as it was. */
  predicate RunTold(l: Log, d: Done) {
    && Straight(d.log) && d.log.appended == l.appended && d.log.closed
    && StoryOf(d.log.trace)
       == StoryOf(l.trace).(close := Some(d.close), died := StoryOf(l.trace).died || d.close.state.Aborted?,
                            wire := Wire(d.log.trace))
  }

  lemma FinishTold(l: Log, written: nat, sent: nat, state: StreamState, reset: bool)
    requires Straight(l) && !l.closed
    ensures var d := Finish(l, written, sent, state);
      (!state.Aborted? ==> RunTold(l, d)) && (state.Aborted? ==> RunTold(l, Aborting(d, reset)))
  {
    hide StoryOf, Straight, Closed, Emit;
    var c := StreamClose(written, sent, state);
    TellClosed(l, c);
    var d := Finish(l, written, sent, state);
    TellQuiet(d.log, Reset);
    TellQuiet(d.log, Abort);
    TellQuiet(Emit(d.log, Reset), Abort);
    WiresAreStories(d.log.trace);
    WiresAreStories(Aborting(d, reset).log.trace);
    FlagsStay(d.log, Reset);
    FlagsStay(d.log, Abort);
    FlagsStay(Emit(d.log, Reset), Abort);
  }

  lemma WiresAreStories(trace: seq<Event>)
    ensures StoryOf(trace).wire == Wire(trace)
  {
  }

  lemma FlagsStay(l: Log, e: Event)
    ensures Emit(l, e).appended == l.appended && Emit(l, e).closed == l.closed && Emit(l, e).status == l.status
  {
  }

  lemma RunToldFrom(l: Log, m: Log, d: Done)
    requires RunTold(m, d) && m.appended == l.appended
    requires StoryOf(m.trace) == StoryOf(l.trace).(wire := StoryOf(m.trace).wire)
    ensures RunTold(l, d)
  {
  }

  lemma SentinelTold(w: World, l: Log, p: StreamPlan, written: nat, sent: nat)
    requires Straight(l) && !l.closed
    ensures RunTold(l, SentinelFrom(w, l, p, written, sent))
  {
    hide StoryOf, RunTold, Wrote, Accepted, WriteFails, Finish;
    var l' := Slept(w, l, p.sentinelPace);
    StraightElsewhere(l, l');
    var n := Accepted(w, l', p.sentinel);
    var after := Wrote(w, l', Frames, p.sentinel);
    TellWrote(w, l', Frames, p.sentinel);
    var d := SentinelFrom(w, l, p, written, sent);
    FinishTold(l, written, sent, Completed, false);
    FinishTold(l', written, sent, ClientGone, false);
    FinishTold(after, written + n, sent, if WriteFails(w, l', p.sentinel) then ClientGone else Completed, false);
    if RunTold(l', d) { RunToldFrom(l, l', d); }
    if RunTold(after, d) { RunToldFrom(l, after, d); }
  }

  lemma StraightElsewhere(l: Log, l': Log)
    requires Straight(l) && l'.trace == l.trace && l'.appended == l.appended && l'.closed == l.closed
    ensures Straight(l')
  {
  }

  lemma {:induction false} StreamTold(w: World, l: Log, p: StreamPlan, i: nat, written: nat, sent: nat)
    requires Straight(l) && !l.closed && p.Sound() && i <= |p.chunks|
    ensures RunTold(l, StreamFrom(w, l, p, i, written, sent))
    decreases |p.chunks| - i
  {
    hide StoryOf, Straight, RunTold, Wrote, Accepted, WriteFails, Finish, Aborting;
    var d := StreamFrom(w, l, p, i, written, sent);
    if i == |p.chunks| {
      SentinelTold(w, l, p, written, sent);
    } else if p.disconnectAt == i {
      FinishTold(l, written, sent, Aborted, p.reset);
    } else {
      var l' := Slept(w, l, p.PaceOf(i));
      StraightElsewhere(l, l');
      FinishTold(l', written, sent, ClientGone, false);
      var b := if p.truncateAt == i then p.chunks[i].bytes[..p.truncateBytes] else p.chunks[i].bytes;
      var n := Accepted(w, l', b);
      var after := Wrote(w, l', Frames, b);
      TellWrote(w, l', Frames, b);
      FinishTold(after, written + n, sent, ClientGone, false);
      FinishTold(after, written + n, sent, Aborted, p.reset);
      StreamTold(w, after, p, i + 1, written + n, sent + 1);
      if RunTold(l', d) { RunToldFrom(l, l', d); }
      if RunTold(after, d) { RunToldFrom(l, after, d); }
    }
  }

  lemma StartedTold(v: Visit)
    ensures var l := Started(v);
      Straight(l) && !l.appended && !l.closed && StoryOf(l.trace) == Story(None, None, false, [])
  {
    Tell(START, Claim);
  }

  lemma EndedIsDone(l: Log, out: Outcome, resp: Response)
    requires l.appended && l.closed
    ensures Ended(l, out, resp) == l
  {
  }

  lemma PlannedForStream(w: World, v: Visit)
    requires Served(v).stream.Some?
    ensures
      var out := Planned(w, v);
      && (out.aborted <==> ScriptsAbort(Applied(v)))
      && out.stream == Some(PlannedOutcome(Applied(v), Served(v).stream.value))
  {
    hide Decided, Reply, Eligible, PlannedOutcome, Has, FaultBody;
  }

  /** The entry and the amendment of a streamed request, and the wire, as its run leaves them. */
  lemma StreamedStory(w: World, v: Visit) returns (l: Log)
    requires Served(v).stream.Some?
    ensures
      var a, resp := Applied(v), Served(v);
      var t := Handled(w, v).trace;
      && Wire(l.trace) == []
      && EntryOf(t) == Some(Planned(w, v))
      && (Gone(w, l, PreDelay(a)) ==> CloseOf(t) == Some(StreamClose(0, 0, ClientGone)) && !Died(t) && Wire(t) == [])
      && (!Gone(w, l, PreDelay(a)) ==>
            var d := Streamed(w, Slept(w, l, PreDelay(a)), a, resp.stream.value, resp.status);
            && t == d.log.trace && CloseOf(t) == Some(d.close) && (Died(t) <==> d.close.state.Aborted?))
  {
    hide StoryOf, Straight, Applied, Served, Started, Planned, StreamFrom, Recorded, Closed;
    var a, resp, out := Applied(v), Served(v), Planned(w, v);
    StartedTold(v);
    l := Recorded(Started(v), out);
    TellRecorded(Started(v), out);
    StoriesRead(Started(v).trace);
    StoriesRead(l.trace);
    var waited := Slept(w, l, PreDelay(a));
    StraightElsewhere(l, waited);
    if Gone(w, l, PreDelay(a)) {
      var gone := out.(aborted := out.aborted || resp.stream.None?, written := 0);
      TellRecorded(waited, gone);
      TellClosed(Recorded(waited, gone), StreamClose(0, 0, ClientGone));
      StoriesRead(Handled(w, v).trace);
    } else {
      var code := StatusOr(StatusFor(a, resp.status));
      TellQuiet(waited, Headers(code));
      var open := HeadersSent(waited, code);
      StraightElsewhere(Emit(waited, Headers(code)), open);
      StreamTold(w, open, PlanStream(a, resp.stream.value), 0, 0, 0);
      var r := Performed(w, waited, a, resp, out);
      StoriesRead(r.log.trace);
      EndedIsDone(r.log, r.out, resp);
    }
  }

  lemma StoriesRead(t: seq<Event>)
    ensures StoryOf(t) == Story(EntryOf(t), CloseOf(t), Died(t), Wire(t))
  {
  }

  /** Whenever and however its client goes, a streamed request's amendment counts exactly the bytes the
      client received, those are a prefix of the script, every chunk counted as sent is whole in them,
      and the entry announced the abort its script asks for and the size of the uninterrupted run. */
  lemma StreamsAreAmendedTruthfully(w: World, v: Visit)
    requires Served(v).stream.Some?
    ensures
      var t, s := Handled(w, v).trace, Served(v).stream.value;
      && EntryOf(t).Some? && CloseOf(t).Some?
      && (EntryOf(t).value.aborted <==> ScriptsAbort(Applied(v)))
      && EntryOf(t).value.stream.Some? && EntryOf(t).value.stream.value.bytesPlanned == |s.Whole()|
      && CloseOf(t).value.written == |Wire(t)|
      && Wire(t) <= ScriptedBytes(Applied(v), s)
      && CloseOf(t).value.sent <= |s.chunks| && Concat(s.chunks[..CloseOf(t).value.sent]) <= Wire(t)
  {
    hide Handled, Streamed, ScriptedBytes, Applied, Served, Planned, Wire, EntryOf, CloseOf, Died;
    var l := StreamedStory(w, v);
    PlannedForStream(w, v);
    var a, resp := Applied(v), Served(v);
    if !Gone(w, l, PreDelay(a)) {
      var waited := Slept(w, l, PreDelay(a));
      var payload := LostClientsHoldAPrefix(w, waited, a, resp.stream.value, resp.status);
    }
  }

  /** With a client that stays, the wire carries exactly the scripted bytes and the amendment says so;
      and the abort the entry announced happens exactly when the chunk it names exists. */
  lemma StreamsRunTheirScript(w: World, v: Visit)
    requires w.Patient() && Served(v).stream.Some? && TakesBody(Applied(v), Served(v).status)
    ensures
      var t, a, s := Handled(w, v).trace, Applied(v), Served(v).stream.value;
      var aborts := ScriptsAbort(a) && InRange(a, s);
      && Wire(t) == ScriptedBytes(a, s)
      && CloseOf(t) == Some(StreamClose(|ScriptedBytes(a, s)|, if aborts then a.value.afterChunk else |s.chunks|,
                                        if aborts then Aborted else Completed))
      && (Died(t) <==> aborts)
      && EntryOf(t).Some? && ((EntryOf(t).value.aborted <==> Died(t)) <==> (ScriptsAbort(a) ==> InRange(a, s)))
  {
    hide Handled, Streamed, ScriptedBytes, Applied, Served, Planned, Wire, EntryOf, CloseOf, Died;
    var l := StreamedStory(w, v);
    PlannedForStream(w, v);
    var a, resp := Applied(v), Served(v);
    assert w.client(l.met).None?;
    WireIsTheScript(w, Slept(w, l, PreDelay(a)), a, resp.stream.value, resp.status);
  }

  /** A disconnect after chunk 7 of a one-chunk stream: journaled as aborted, served whole. */
  lemma AnAbortPastTheEndDoesNotHappen(w: World)
    requires w.Patient()
    ensures
      var a := PLAIN.(kind := StreamDisconnect, afterChunk := 7);
      var s := Stream("data_only", [Chunk("data: a\n\n", 0, "", false)], "", 0);
      var t := Handled(w, VisitFor(a, Response(200, "", Some(s), "ok", true, None))).trace;
      && EntryOf(t).Some? && EntryOf(t).value.aborted && !Died(t) && Wire(t) == s.Whole()
  {
    hide Handled, Wire, EntryOf, CloseOf, Died;
    var a := PLAIN.(kind := StreamDisconnect, afterChunk := 7);
    var s := Stream("data_only", [Chunk("data: a\n\n", 0, "", false)], "", 0);
    var v := VisitFor(a, Response(200, "", Some(s), "ok", true, None));
    StreamsAreAmendedTruthfully(w, v);
    StreamsRunTheirScript(w, v);
  }

  /** The load-time check is enough: on an entry it reports nothing about, every aborting stream attempt
      any call can draw is kept for, and fires on, whichever turn answers with a stream: the connection
      dies at the chunk it names with exactly the scripted bytes on the wire, as the entry announced. A
      delay after headers, refused for these kinds by another check, is the one thing in its way. */
  lemma CheckedFaultsFire(
      w: World, v: Visit, faults: seq<Option<Fault>>, turns: seq<StreamChecks.StreamTurn>, fault: Fault, flat: Plan,
      call: int, t: StreamChecks.StreamTurn)
    requires StreamChecks.Coherent(faults, StreamChecks.EntryPolicy(turns), turns)
    requires Some(fault) in faults && t in turns
    requires flat.after == fault.after && Expands(flat.attempts, fault.attempts)
    requires Drawn(v) == flat.At(call) && ScriptsAbort(Drawn(v)) && Drawn(v).value.delayAfterHeaders <= 0
    requires Reply(v).stream.Some? && |Reply(v).stream.value.chunks| == t.Chunks()
    requires w.Patient() && TakesBody(Drawn(v), Reply(v).status)
    ensures
      var trace, a, s := Handled(w, v).trace, Drawn(v), Reply(v).stream.value;
      && Applied(v) == a && InRange(a, s)
      && Died(trace) && EntryOf(trace).Some? && EntryOf(trace).value.aborted
      && Wire(trace) == ScriptedBytes(a, s)
      && CloseOf(trace) == Some(StreamClose(|ScriptedBytes(a, s)|, a.value.afterChunk, Aborted))
  {
    hide Handled, ScriptedBytes, Decided, Reply, Wire, EntryOf, CloseOf, Died, Expands, StreamChecks.Coherent;
    StreamChecks.CoherentChunksExist(faults, turns, fault, flat, call, t);
    StreamsRunTheirScript(w, v);
  }

  /** What the entry announces about a cut is where the run is cut: the chunk it names is how many were
      sent whole, and the byte, if any, how far into the next one the wire goes. */
  lemma AnnouncedCutIsTheCut(w: World, v: Visit)
    requires w.Patient() && Served(v).stream.Some? && TakesBody(Applied(v), Served(v).status)
    requires ScriptsAbort(Applied(v)) && InRange(Applied(v), Served(v).stream.value)
    ensures
      var t, s := Handled(w, v).trace, Served(v).stream.value;
      && EntryOf(t).Some? && EntryOf(t).value.stream.Some? && CloseOf(t).Some?
      && var told, close := EntryOf(t).value.stream.value, CloseOf(t).value;
      && told.abortAfterChunk == Some(close.sent)
      && close.sent <= |s.chunks|
      && close.written == |Concat(s.chunks[..close.sent])|
                          + if told.truncatedAtByte.Some? then told.truncatedAtByte.value else 0
  {
    hide Handled, Applied, Served, Planned, Wire, EntryOf, CloseOf, Died;
    var l := StreamedStory(w, v);
    PlannedForStream(w, v);
    StreamsRunTheirScript(w, v);
  }

  // ---- everything else ----

  lemma {:induction false} PadTold(w: World, l: Log, padding: nat)
    requires Straight(l)
    ensures var end := PadFrom(w, l, padding);
      && Straight(end) && end.appended == l.appended && end.closed == l.closed
      && StoryOf(end.trace) == StoryOf(l.trace).(wire := Wire(end.trace)) && |Wire(end.trace)| >= |Wire(l.trace)|
    decreases padding
  {
    hide StoryOf, Straight, Wrote, Accepted, WriteFails, Wire;
    StoriesRead(l.trace);
    if padding > 0 {
      var chunk := Spaces(if padding < PADDING_CHUNK then padding else PADDING_CHUNK);
      var n := Accepted(w, l, chunk);
      TellWrote(w, l, Padding, chunk);
      StoriesRead(Wrote(w, l, Padding, chunk).trace);
      if !WriteFails(w, l, chunk) && n != 0 { PadTold(w, Wrote(w, l, Padding, chunk), padding - n); }
    }
  }

  /** The client leaves in the hang an attempt asks for after headers. */
  predicate HangsUp(w: World, met: nat, a: Option<Attempt>) {
    && a.Some? && !a.value.EffectiveKind().CloseBeforeHeaders?
    && Hangs(w, a.value.delayAfterHeaders) && w.client(met).Some?
  }

  /** How many hangs and writes a client has sat through once a hang is over. */
  function MetAfter(w: World, met: nat, d: int): nat { if Hangs(w, d) then met + 1 else met }

  /** How much of a truncated body its client takes. */
  function TruncatedBytes(w: World, met: nat, a: Attempt, resp: Response): nat {
    var part := Truncation(a, |FaultBody(w, a, resp).bytes|);
    if WritesNoBody(FinalStatus(StatusOr(StatusFor(Some(a), resp.status)))) then 0
    else match w.client(MetAfter(w, met, a.delayAfterHeaders))
      case None => part
      case Some(n) => if n < part then n else part
  }

  /** How many body bytes reach the wire. */
  function BytesDue(w: World, met: nat, a: Option<Attempt>, resp: Response, out: Outcome): nat {
    if a.None? || !a.value.EffectiveKind().TruncateBody? || HangsUp(w, met, a) then out.written
    else TruncatedBytes(w, met, a.value, resp)
  }

  /** The writer destroys the connection: its attempt says so, and the client has not left in the hang
      before. */
  predicate Severs(w: World, met: nat, a: Option<Attempt>) { Destroys(a) && !HangsUp(w, met, a) }

  /** How a writer leaves a log: dead exactly when it destroys the connection, its entry appended only
      for that, its bytes counted. */
  predicate Accounted(w: World, l: Log, a: Option<Attempt>, resp: Response, out: Outcome, r: Ran) {
    && Straight(r.log) && r.log.closed == l.closed
    && r.log.appended == (l.appended || Severs(w, l.met, a))
    && EntryOf(r.log.trace) == (if Severs(w, l.met, a) && !l.appended then Some(out) else EntryOf(l.trace))
    && Died(r.log.trace) == (Died(l.trace) || Severs(w, l.met, a))
    && |Wire(r.log.trace)| == |Wire(l.trace)| + BytesDue(w, l.met, a, resp, r.out)
  }

  lemma RecordedStatus(l: Log, out: Outcome)
    ensures Recorded(l, out).status == l.status && Recorded(l, out).met == l.met
  {
  }

  lemma HungTold(w: World, l: Log, a: Option<Attempt>, resp: Response) returns (hung: Log)
    requires Straight(l)
    ensures hung == Slept(w, WithHeaders(l, a, resp), AfterHeaders(a))
    ensures Straight(hung) && hung.appended == l.appended && hung.closed == l.closed
    ensures StoryOf(hung.trace) == StoryOf(l.trace) && hung.met == MetAfter(w, l.met, AfterHeaders(a))
    ensures hung.status == FinalStatus(StatusOr(StatusFor(a, resp.status)))
  {
    hide StoryOf, Straight;
    var code := StatusOr(StatusFor(a, resp.status));
    TellQuiet(l, Headers(code));
    hung := Slept(w, WithHeaders(l, a, resp), AfterHeaders(a));
    StraightElsewhere(Emit(l, Headers(code)), hung);
  }

  lemma LeftTold(w: World, l: Log, a: Option<Attempt>, resp: Response, out: Outcome)
    requires Straight(l) && HangsUp(w, l.met, a)
    ensures Accounted(w, l, a, resp, out, Executed(w, l, a, resp, out))
    ensures Executed(w, l, a, resp, out).out == out.(aborted := true, written := 0)
  {
    hide StoryOf, Straight, Wrote, Accepted, WriteFails, Wire, FaultBody, PadFrom, Recorded, Died, EntryOf, CloseOf;
    var hung := HungTold(w, l, a, resp);
    StoriesRead(l.trace);
    StoriesRead(hung.trace);
  }

  lemma TruncatedTold(w: World, l: Log, a: Attempt, resp: Response, out: Outcome)
    requires Straight(l) && a.EffectiveKind().TruncateBody? && !HangsUp(w, l.met, Some(a))
    ensures Accounted(w, l, Some(a), resp, out, Executed(w, l, Some(a), resp, out))
  {
    hide StoryOf, Straight, Wrote, WriteFails, Wire, FaultBody, Recorded, Died, EntryOf, CloseOf;
    var hung := HungTold(w, l, Some(a), resp);
    var noted := Recorded(hung, out);
    TellRecorded(hung, out);
    var body := FaultBody(w, a, resp);
    var part := body.bytes[..Truncation(a, |body.bytes|)];
    var cut := Wrote(w, noted, body.origin, part);
    TellWrote(w, noted, body.origin, part);
    TellQuiet(cut, Reset);
    TellQuiet(cut, Abort);
    TellQuiet(Emit(cut, Reset), Abort);
    StoriesRead(l.trace);
    StoriesRead(Executed(w, l, Some(a), resp, out).log.trace);
    RecordedStatus(hung, out);
  }

  lemma PlainTold(w: World, l: Log, a: Option<Attempt>, resp: Response, out: Outcome)
    requires Straight(l) && !Destroys(a) && !HangsUp(w, l.met, a)
    ensures Accounted(w, l, a, resp, out, Executed(w, l, a, resp, out))
  {
    hide StoryOf, Straight, Wrote, Accepted, WriteFails, Wire, FaultBody, PadFrom, Died, EntryOf, CloseOf, WithHeaders,
         StatusOr, StatusFor, FinalStatus;
    var hung := HungTold(w, l, a, resp);
    HeadersMeetNobody(l, a, resp);
    var body := if a.None? then Body(HandlerBody, resp.body) else FaultBody(w, a.value, resp);
    TellWrote(w, hung, body.origin, body.bytes);
    var whole := Wrote(w, hung, body.origin, body.bytes);
    PadTold(w, whole, if a.None? then 0 else Excess(a.value, body.bytes));
    StoriesRead(l.trace);
    StoriesRead(hung.trace);
    StoriesRead(whole.trace);
    StoriesRead(Executed(w, l, a, resp, out).log.trace);
  }

  lemma HeadersMeetNobody(l: Log, a: Option<Attempt>, resp: Response)
    ensures WithHeaders(l, a, resp).met == l.met
  {
  }

  lemma ExecutedTold(w: World, l: Log, a: Option<Attempt>, resp: Response, out: Outcome)
    requires Straight(l)
    requires a.Some? && a.value.EffectiveKind().CloseBeforeHeaders? ==> l.appended && out.written == 0
    ensures Accounted(w, l, a, resp, out, Executed(w, l, a, resp, out))
  {
    hide StoryOf, Straight, Wrote, Accepted, WriteFails, Wire, FaultBody, PadFrom, Died, EntryOf, CloseOf;
    if HangsUp(w, l.met, a) {
      LeftTold(w, l, a, resp, out);
    } else if !Destroys(a) {
      PlainTold(w, l, a, resp, out);
    } else if a.value.EffectiveKind().TruncateBody? {
      TruncatedTold(w, l, a.value, resp, out);
    } else {
      TellQuiet(l, Reset);
      TellQuiet(Emit(l, Reset), Abort);
      StoriesRead(l.trace);
      StoriesRead(Executed(w, l, a, resp, out).log.trace);
    }
  }

  lemma PlannedOtherwise(w: World, v: Visit)
    requires Served(v).stream.None?
    ensures
      var out, a := Planned(w, v), Applied(v);
      && (out.aborted <==> Destroys(a))
      && (a.Some? ==> !a.value.EffectiveKind().IsStream())
      && (Destroys(a) && a.value.EffectiveKind().CloseBeforeHeaders? ==> out.written == 0)
      && (Destroys(a) && a.value.EffectiveKind().TruncateBody? ==>
           out.written == Truncation(a.value, |FaultBody(w, a.value, Served(v)).bytes|))
  {
    hide Decided, Reply, Eligible, PlannedOutcome, Has, FaultBody;
  }

  /** What a writer returns: the outcome it was given, with its bytes counted, unless the client left in
      the hang. */
  lemma ExecutedReturns(w: World, l: Log, a: Option<Attempt>, resp: Response, out: Outcome)
    ensures var r := Executed(w, l, a, resp, out);
      && r.out.(aborted := out.aborted, written := out.written) == out
      && (r.out.aborted <==> out.aborted || HangsUp(w, l.met, a))
      && (HangsUp(w, l.met, a) ==> r.out.written == 0)
      && (Severs(w, l.met, a) ==> r.out == out)
  {
    hide Wrote, Accepted, WriteFails, FaultBody, PadFrom, Wire, BytesSince;
  }

  // ---- any client at all ----

  /** The client leaves before the request has written a byte: in the hang before its headers or in the
      one after them. */
  predicate LeavesInAHang(w: World, a: Option<Attempt>) {
    (Hangs(w, PreDelay(a)) && w.client(0).Some?) || HangsUp(w, MetAfter(w, 0, PreDelay(a)), a)
  }

  /** A truncation that is carried out but whose client does not get all of what it keeps: the entry,
      appended before the write, counts bytes that never arrive. */
  predicate CountsUnsent(w: World, a: Option<Attempt>, resp: Response) {
    && a.Some? && a.value.EffectiveKind().TruncateBody? && !LeavesInAHang(w, a)
    && TruncatedBytes(w, MetAfter(w, 0, PreDelay(a)), a.value, resp)
         < Truncation(a.value, |FaultBody(w, a.value, resp).bytes|)
  }

  /** A request that does not stream, whatever its client does: the connection dies exactly when an attempt
      destroys it with the client still there; the entry says aborted exactly then and when the client
      left in a hang, before any byte; and it counts exactly the body bytes that reached the wire, unless
      it truncates and its client does not get all of what that keeps. */
  lemma OrdinaryEntriesTellTheTruth(w: World, v: Visit)
    requires Served(v).stream.None?
    ensures
      var t, a := Handled(w, v).trace, Applied(v);
      && EntryOf(t).Some?
      && EntryOf(t).value.(aborted := Planned(w, v).aborted, written := Planned(w, v).written) == Planned(w, v)
      && (Died(t) <==> Destroys(a) && !LeavesInAHang(w, a))
      && (EntryOf(t).value.aborted <==> Died(t) || LeavesInAHang(w, a))
      && (LeavesInAHang(w, a) ==> Wire(t) == [])
      && (EntryOf(t).value.written == |Wire(t)| <==> !CountsUnsent(w, a, Served(v)))
  {
    hide StoryOf, Applied, Served, Started, Planned, Executed, Recorded, Closed, Wire, Died, EntryOf, CloseOf,
         FaultBody;
    var a, resp, out := Applied(v), Served(v), Planned(w, v);
    PlannedOtherwise(w, v);
    StartedTold(v);
    StartedMeetsNobody(v);
    var waited := Slept(w, Started(v), PreDelay(a));
    StraightElsewhere(Started(v), waited);
    StoriesRead(waited.trace);
    if Gone(w, Started(v), PreDelay(a)) {
      var gone := out.(aborted := true, written := 0);
      TellRecorded(waited, gone);
      StoriesRead(Recorded(waited, gone).trace);
      assert Handled(w, v) == Recorded(waited, gone);
    } else {
      DispatchedTold(w, waited, a, resp, out);
      assert Handled(w, v) == Dispatched(w, waited, a, resp, out);
    }
  }

  lemma StartedMeetsNobody(v: Visit)
    ensures Started(v).met == 0
  {
  }

  lemma DispatchedTold(w: World, l: Log, a: Option<Attempt>, resp: Response, out: Outcome)
    requires Straight(l) && !l.appended && StoryOf(l.trace) == Story(None, None, false, []) && resp.stream.None?
    requires out.aborted <==> Destroys(a)
    requires Destroys(a) && a.value.EffectiveKind().CloseBeforeHeaders? ==> out.written == 0
    requires Destroys(a) && a.value.EffectiveKind().TruncateBody? ==>
      out.written == Truncation(a.value, |FaultBody(w, a.value, resp).bytes|)
    ensures
      var t := Dispatched(w, l, a, resp, out).trace;
      && EntryOf(t).Some? && EntryOf(t).value.(aborted := out.aborted, written := out.written) == out
      && (Died(t) <==> Severs(w, l.met, a))
      && (EntryOf(t).value.aborted <==> Died(t) || HangsUp(w, l.met, a))
      && (HangsUp(w, l.met, a) ==> Wire(t) == [])
      && (EntryOf(t).value.written == |Wire(t)| <==>
           !(Severs(w, l.met, a) && a.value.EffectiveKind().TruncateBody?
             && TruncatedBytes(w, l.met, a.value, resp) < out.written))
  {
    hide StoryOf, Executed, Recorded, Wire, Died, EntryOf, CloseOf, FaultBody;
    var entered := if out.aborted && !DefersAbort(a) then Recorded(l, out) else l;
    TellRecorded(l, out);
    RecordedStatus(l, out);
    StoriesRead(l.trace);
    StoriesRead(entered.trace);
    ExecutedTold(w, entered, a, resp, out);
    ExecutedReturns(w, entered, a, resp, out);
    var r := Executed(w, entered, a, resp, out);
    TellRecorded(r.log, r.out);
    StoriesRead(r.log.trace);
    StoriesRead(Recorded(r.log, r.out).trace);
    assert Dispatched(w, l, a, resp, out) == Recorded(r.log, r.out);
  }

  /** Half of a four-byte body under a 204: the entry counts two bytes, the wire carries none. */
  lemma AnUnsentTruncationIsCounted(w: World)
    requires w.Patient()
    ensures
      var a := PLAIN.(kind := TruncateBody, status := 204);
      var t := Handled(w, VisitFor(a, Response(200, "abcd", None, "ok", true, None))).trace;
      EntryOf(t).Some? && EntryOf(t).value.written == 2 && Wire(t) == []
  {
    hide EntryOf, Wire;
    var a := PLAIN.(kind := TruncateBody, status := 204);
    var v := VisitFor(a, Response(200, "abcd", None, "ok", true, None));
    var out := Planned(w, v);
    assert Handled(w, v).trace == [Claim, Append(out), Headers(204), Abort];
    AbortedUnsent(out, Headers(204));
    assert out.written == Truncation(a, 4);
  }

  lemma AbortedUnsent(out: Outcome, headers: Event)
    requires headers.Headers?
    ensures var t := [Claim, Append(out), headers, Abort]; EntryOf(t) == Some(out) && Wire(t) == []
  {
    var t := [Claim, Append(out), headers, Abort];
    assert t[..3] == [Claim, Append(out), headers] && t[..3][..2] == [Claim, Append(out)];
    assert t[..3][..2][..1] == [Claim] && [Claim][..0] == [];
    assert EntryOf([Claim]) == None && EntryOf(t[..3][..2]) == EntryOf(t[..3]) == EntryOf(t) == Some(out);
    assert Wire([Claim]) == Wire(t[..3][..2]) == Wire(t[..3]) == Wire(t) == [];
  }

  /** The same half, of which a client takes one byte before it leaves: the entry still counts two. */
  lemma AnAbandonedTruncationIsOvercounted(w: World)
    requires w.client(0) == Some(1)
    ensures
      var t := Handled(w, VisitFor(PLAIN.(kind := TruncateBody), Response(200, "abcd", None, "ok", true, None))).trace;
      EntryOf(t).Some? && EntryOf(t).value.written == 2 && Wire(t) == "a"
  {
    hide EntryOf, Wire;
    var a := PLAIN.(kind := TruncateBody);
    var v := VisitFor(a, Response(200, "abcd", None, "ok", true, None));
    var out := Planned(w, v);
    assert out.written == Truncation(a, 4);
    assert "abcd"[..2][..1] == "a";
    assert Handled(w, v).trace == [Claim, Append(out), Headers(200)] + [Sent(HandlerBody, "a")] + [Abort];
    AbortedAfter(out, Headers(200), Sent(HandlerBody, "a"));
  }

  lemma AbortedAfter(out: Outcome, headers: Event, sent: Event)
    requires headers.Headers? && sent.Sent?
    ensures var t := [Claim, Append(out), headers] + [sent] + [Abort]; EntryOf(t) == Some(out) && Wire(t) == sent.bytes
  {
    hide EntryOf, Wire;
    var t := [Claim, Append(out), headers];
    AbortedUnsent(out, headers);
    assert t + [Abort] == [Claim, Append(out), headers, Abort];
    Tells(t, Abort);
    Tells(t, sent);
    Tells(t + [sent], Abort);
  }

  lemma Tells(t: seq<Event>, e: Event)
    ensures EntryOf(t + [e]) == if EntryOf(t).None? && e.Append? then Some(e.outcome) else EntryOf(t)
    ensures Wire(t + [e]) == if e.Sent? then Wire(t) + e.bytes else Wire(t)
  {
    assert (t + [e])[..|t|] == t;
  }
}
