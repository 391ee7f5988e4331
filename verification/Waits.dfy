/** How long a request hangs, and where, for every attempt and stream.  */
module Waits {
  import opened Text
  import opened Faults
  import opened Connections
  import opened Streams
  import opened Executor
  import opened Handling
  import opened Replies
  import opened StreamReplies

  /** The hangs a list of delays comes to: none when delays are skipped, and none for a delay of nothing. */
  function HangsOf(w: World, delays: seq<int>): seq<int> {
    if delays == [] then []
    else HangsOf(w, delays[..|delays| - 1]) + if !w.skip && delays[|delays| - 1] > 0 then [delays[|delays| - 1]] else []
  }

  lemma {:induction false} HangsAppend(w: World, a: seq<int>, b: seq<int>)
    ensures HangsOf(w, a + b) == HangsOf(w, a) + HangsOf(w, b)
    decreases |b|
  {
    if b == [] {
      assert a + b == a;
    } else {
      var n := |b| - 1;
      HangsAppend(w, a, b[..n]);
      assert (a + b)[..|a + b| - 1] == a + b[..n];
    }
  }

  lemma HangsOfOne(w: World, d: int)
    ensures HangsOf(w, [d]) == if Hangs(w, d) then [d] else []
  {
    assert [d][..0] == [];
  }

  /** The delays of a run from chunk i on: before each chunk it writes, the cut one included, and before the
      sentinel. */
  function DelaysFrom(a: Option<Attempt>, s: Stream, i: nat): seq<int>
    requires i <= |s.chunks| && (CutAt(a, s).Some? ==> i <= CutAt(a, s).value)
  {
    var end := if CutAt(a, s).None? then |s.chunks|
      else CutAt(a, s).value + if a.value.EffectiveKind().StreamTruncateChunk? then 1 else 0;
    seq(end - i, j requires 0 <= j < end - i => PaceAt(a, s, i + j))
    + if CutAt(a, s).None? && s.sentinel != "" then [s.sentinelPace] else []
  }

  lemma DelaysPeel(a: Option<Attempt>, s: Stream, i: nat)
    requires i < |s.chunks| && (CutAt(a, s).Some? ==> i < CutAt(a, s).value)
    ensures DelaysFrom(a, s, i) == [PaceAt(a, s, i)] + DelaysFrom(a, s, i + 1)
  {
  }

  lemma DelaysAtTheCut(a: Option<Attempt>, s: Stream, i: nat)
    requires CutAt(a, s) == Some(i) && i < |s.chunks|
    ensures DelaysFrom(a, s, i) == if a.value.EffectiveKind().StreamTruncateChunk? then [PaceAt(a, s, i)] else []
  {
  }

  lemma DelaysAtTheEnd(a: Option<Attempt>, s: Stream)
    requires CutAt(a, s).None?
    ensures DelaysFrom(a, s, |s.chunks|) == if s.sentinel != "" then [s.sentinelPace] else []
  {
  }

  lemma PlansPace(a: Option<Attempt>, s: Stream, i: nat)
    requires i < |s.chunks|
    ensures PlanStream(a, s).PaceOf(i) == PaceAt(a, s, i) && PlanStream(a, s).sentinelPace == s.sentinelPace
  {
  }

  lemma SentinelWaits(w: World, l: Log, a: Option<Attempt>, s: Stream, written: nat, sent: nat)
    requires w.Patient() && !WritesNoBody(l.status) && CutAt(a, s).None?
    ensures StreamFrom(w, l, PlanStream(a, s), |s.chunks|, written, sent).log.waits
         == l.waits + HangsOf(w, DelaysFrom(a, s, |s.chunks|))
  {
    hide Wrote, Accepted, WriteFails, Finish, HangsOf, PlanStream, Slept, Gone, DelaysFrom;
    var p := PlanStream(a, s);
    SentinelsPace(a, s);
    DelaysAtTheEnd(a, s);
    HangsOfOne(w, s.sentinelPace);
    HangsOfNone(w);
    SleepsQuietly(w, l, s.sentinelPace);
    var l' := Slept(w, l, s.sentinelPace);
    PatientWrites(w, l', s.sentinel);
    SeenFinish(l, written, sent, Completed, false);
    SeenFinish(Wrote(w, l', Frames, s.sentinel), written + Accepted(w, l', s.sentinel), sent, Completed, false);
  }

  lemma SentinelsPace(a: Option<Attempt>, s: Stream)
    ensures PlanStream(a, s).sentinelPace == s.sentinelPace
  {
  }

  lemma HangsOfNone(w: World)
    ensures HangsOf(w, []) == []
  {
  }

  lemma {:induction false} RunWaits(
      w: World, l: Log, a: Option<Attempt>, s: Stream, i: nat, written: nat, sent: nat)
    requires w.Patient() && !WritesNoBody(l.status)
    requires i <= |s.chunks| && (CutAt(a, s).Some? ==> i <= CutAt(a, s).value)
    ensures StreamFrom(w, l, PlanStream(a, s), i, written, sent).log.waits
         == l.waits + HangsOf(w, DelaysFrom(a, s, i))
    decreases |s.chunks| - i
  {
    hide Wrote, Accepted, StreamFrom, PlanStream, Slept, DelaysFrom, HangsOf, ScriptFrom;
    if i == |s.chunks| {
      SentinelWaits(w, l, a, s, written, sent);
    } else {
      PlansPace(a, s, i);
      SleepsQuietly(w, l, PaceAt(a, s, i));
      HangsOfOne(w, PaceAt(a, s, i));
      HangsOfNone(w);
      if CutAt(a, s) == Some(i) {
        RunIsCut(w, l, a, s, i, written, sent);
        DelaysAtTheCut(a, s, i);
      } else {
        var b, l' := s.chunks[i].bytes, Slept(w, l, PaceAt(a, s, i));
        RunGoesOn(w, l, a, s, i, written, sent);
        PatientWrites(w, l', b);
        RunWaits(w, Wrote(w, l', Frames, b), a, s, i + 1, written + Accepted(w, l', b), sent + 1);
        DelaysPeel(a, s, i);
        HangsAppend(w, [PaceAt(a, s, i)], DelaysFrom(a, s, i + 1));
      }
    }
  }

  /** The delays an attempt asks for before the headers of a response, and after them. */
  function DelaysBefore(a: Option<Attempt>): seq<int> {
    if a.None? || a.value.EffectiveKind().StreamStall? then [] else [a.value.delay]
  }

  function DelaysAfter(a: Option<Attempt>): seq<int> {
    if a.None? || a.value.EffectiveKind().CloseBeforeHeaders? then [] else [a.value.delayAfterHeaders]
  }

  lemma ExecutedWaits(w: World, l: Log, a: Option<Attempt>, resp: Response, out: Outcome)
    requires w.Patient()
    ensures Executed(w, l, a, resp, out).log.waits
         == l.waits + HangsOf(w, DelaysAfter(a))
  {
    hide FaultBody, HangsOf, PadFrom, Slept, Gone, Wrote, WriteFails, Accepted, BytesSince;
    HangsOfNone(w);
    if a.Some? {
      HangsOfOne(w, a.value.delayAfterHeaders);
      var open := WithHeaders(l, a, resp);
      SleepsQuietly(w, open, a.value.delayAfterHeaders);
      var hung, body := Slept(w, open, a.value.delayAfterHeaders), FaultBody(w, a.value, resp);
      WritesDoNotWait(w, hung, body.origin, body.bytes);
      PaddingDoesNotWait(w, Wrote(w, hung, body.origin, body.bytes), Excess(a.value, body.bytes));
      WritesDoNotWait(w, Recorded(hung, out), body.origin, body.bytes[..Truncation(a.value, |body.bytes|)]);
    } else {
      WritesDoNotWait(w, WithHeaders(l, a, resp), HandlerBody, resp.body);
    }
  }

  lemma WritesDoNotWait(w: World, l: Log, o: Origin, bytes: Bytes)
    ensures Wrote(w, l, o, bytes).waits == l.waits
  {
  }

  lemma {:induction false} PaddingDoesNotWait(w: World, l: Log, padding: nat)
    ensures PadFrom(w, l, padding).waits == l.waits
    decreases padding
  {
    hide Accepted, WriteFails;
    if padding > 0 {
      var chunk := Spaces(if padding < PADDING_CHUNK then padding else PADDING_CHUNK);
      var n := Accepted(w, l, chunk);
      if !WriteFails(w, l, chunk) && n != 0 { PaddingDoesNotWait(w, Wrote(w, l, Padding, chunk), padding - n); }
    }
  }

  /** With a client that stays, a request hangs for exactly the delays it asks for, in order: the attempt's
      delay, unless it stalls a stream; then its hang after headers, if it gets that far; or the pace of each
      chunk, the stalled one's delay added, and the sentinel's. */
  lemma RequestsHangAsAsked(w: World, v: Visit)
    requires w.Patient()
    ensures
      var a := Serving(v);
      var before := DelaysBefore(a);
      var code := StatusOn(a, Reply(v));
      && (!WillStream(v) ==> Handled(w, v).waits == HangsOf(w, before + DelaysAfter(a)))
      && (WillStream(v) && code !in {101, 204, 304} ==>
            Handled(w, v).waits == HangsOf(w, before + DelaysFrom(a, Reply(v).stream.value, 0)))
  {
    hide Serving, WillStream, Reply, Applied, Served, Planned, Decided, Started, HangsOf, Recorded, Closed, Slept, Gone,
         Executed, StreamFrom, PlanStream, DelaysFrom;
    ServingIsApplied(v);
    var a, resp, out := Applied(v), Served(v), Planned(w, v);
    var before := DelaysBefore(a);
    StartsWithoutWaiting(v);
    var entered := if resp.stream.Some? then Recorded(Started(v), out) else Started(v);
    RecordingDoesNotWait(Started(v), out);
    SleepsQuietly(w, entered, PreDelay(a));
    BeforeHeaders(w, a, before);
    var waited := Slept(w, entered, PreDelay(a));
    var code := StatusOr(StatusFor(a, resp.status));
    BodilessIs(code);
    var l := if out.aborted && resp.stream.None? && !DefersAbort(a) then Recorded(waited, out) else waited;
    RecordingDoesNotWait(waited, out);
    var r := Performed(w, l, a, resp, out);
    EndingDoesNotWait(r.log, r.out, resp);
    if resp.stream.None? {
      ExecutedWaits(w, l, a, resp, out);
      HangsAppend(w, before, DelaysAfter(a));
    } else if code !in {101, 204, 304} {
      RunWaits(w, HeadersSent(l, code), a, resp.stream.value, 0, 0, 0);
      HangsAppend(w, before, DelaysFrom(a, resp.stream.value, 0));
    }
  }

  lemma StartsWithoutWaiting(v: Visit)
    ensures Started(v).waits == []
  {
  }

  lemma RecordingDoesNotWait(l: Log, out: Outcome)
    ensures Recorded(l, out).waits == l.waits
  {
  }

  lemma EndingDoesNotWait(l: Log, out: Outcome, resp: Response)
    ensures Ended(l, out, resp).waits == l.waits
  {
  }

  lemma BeforeHeaders(w: World, a: Option<Attempt>, before: seq<int>)
    requires before == DelaysBefore(a)
    ensures (if Hangs(w, PreDelay(a)) then [PreDelay(a)] else []) == HangsOf(w, before)
  {
    hide HangsOf;
    HangsOfNone(w);
    if before != [] { HangsOfOne(w, before[0]); }
  }
}
